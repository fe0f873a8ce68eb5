/** A router's handling of DIOs for one DODAG it does not root: joining, migrating between DODAG Versions, following
    its neighbours, and what it retains of the Versions it has left. */
module Router {
  import opened Lollipop
  import opened RplTypes
  import opened ParentSelection
  import opened Paths
  import LinkEtx

  const RETAINED_VERSIONS := 4

  /** L of a DODAG Version left, and when the router stops holding itself to it. */
  datatype RetainedRank = RetainedRank(version: Byte, lowest: Rank, expires: Time)

  /** The configuration a DIO puts in force for a router joining on it. */
  datatype Configuration = Configuration(mrhof: bool, minHop: nat, maxInc: nat, window: nat)

  datatype Dio = Dio(version: Byte, rank: Rank, dtsn: Byte, pathEtx: Option<nat>, conf: Configuration, temporary: bool)

  datatype State = State(dodag: Option<Membership>, retained: seq<RetainedRank>, retainedPathSequence: Option<Byte>)

  // ---------------------------------------------------------------- retained ranks

  function Surviving(records: seq<RetainedRank>, version: Byte, now: Time): seq<RetainedRank> {
    if records == [] then []
    else
      var r := records[0];
      (if r.expires <= now || r.version == version then [] else [r]) + Surviving(records[1..], version, now)
  }

  lemma {:induction false} SurvivingAre(records: seq<RetainedRank>, version: Byte, now: Time)
    ensures |Surviving(records, version, now)| <= |records|
    ensures forall r :: r in Surviving(records, version, now)
                        <==> r in records && r.expires > now && r.version != version
  {
    if records != [] {
      SurvivingAre(records[1..], version, now);
    }
  }

  lemma {:induction false} SurvivingConcat(a: seq<RetainedRank>, b: seq<RetainedRank>, version: Byte, now: Time)
    ensures Surviving(a + b, version, now) == Surviving(a, version, now) + Surviving(b, version, now)
  {
    if a == [] {
      assert a + b == b;
    } else {
      assert (a + b)[1..] == a[1..] + b;
      SurvivingConcat(a[1..], b, version, now);
      Associates(if a[0].expires <= now || a[0].version == version then [] else [a[0]], Surviving(a[1..], version, now),
                 Surviving(b, version, now));
    }
  }

  lemma SurvivingOneMore(records: seq<RetainedRank>, r: RetainedRank, version: Byte, now: Time)
    ensures Surviving(records + [r], version, now)
         == Surviving(records, version, now) + if r.expires <= now || r.version == version then [] else [r]
  {
    SurvivingConcat(records, [r], version, now);
    assert [r][1..] == [];
  }

  function Remember(records: seq<RetainedRank>, r: RetainedRank, now: Time): seq<RetainedRank> {
    var kept := Surviving(records, r.version, now) + [r];
    if |kept| > RETAINED_VERSIONS then kept[1..] else kept
  }

  predicate HoldsRecord(records: seq<RetainedRank>, version: Byte, now: Time) {
    exists r :: r in records && r.expires > now && r.version == version
  }

  function Restored(records: seq<RetainedRank>, version: Byte, now: Time): (lowest: Rank)
    ensures !HoldsRecord(records, version, now) ==> lowest == INFINITE_RANK
    ensures HoldsRecord(records, version, now) ==>
              exists r :: r in records && r.expires > now && r.version == version && r.lowest == lowest
  {
    if records == [] then INFINITE_RANK
    else
      var last := records[|records| - 1];
      if last.expires > now && last.version == version then last.lowest
      else
        assert forall r :: r in records ==> r == last || r in records[..|records| - 1];
        Restored(records[..|records| - 1], version, now)
  }

  predicate OlderThanRetained(records: seq<RetainedRank>, version: Byte, now: Time) {
    exists r :: r in records && r.expires > now && Compare(version, r.version) == Less
  }

  // ---------------------------------------------------------------- the specification of the handlers

  function Join(s: State, d: Dio, now: Time): State {
    s.(dodag := Some(Membership(d.version, INFINITE_RANK, 0, d.conf.mrhof, d.conf.minHop, d.conf.maxInc,
                                Restored(s.retained, d.version, now), d.conf.window, d.temporary, map[], ANY,
                                if s.retainedPathSequence.Some? then s.retainedPathSequence.value else 0)))
  }

  function Leave(s: State, now: Time): State
    requires s.dodag.Some?
  {
    var m := s.dodag.value;
    if m.temporary then s.(dodag := None)
    else State(None, Remember(s.retained, RetainedRank(m.version, m.lowest, now + m.window), now), Some(m.pathSequence))
  }

  function Settle(s: State, v: Verdict, now: Time): State {
    match v
    case Stays(m, _) => s.(dodag := Some(m))
    case Leaves(gone) => Leave(s.(dodag := Some(gone)), now)
  }

  predicate FollowsVersion(m: Membership, d: Dio) {
    var order := Compare(d.version, m.version);
    order == Greater || (order == NotComparable && d.rank != INFINITE_RANK && d.rank < m.rank)
  }

  /** The state a finite-rank DIO is applied to, or None if it is ignored. */
  function Admit(s: State, d: Dio, now: Time): Option<State> {
    if s.dodag.None? then
      if OlderThanRetained(s.retained, d.version, now) then None else Some(Join(s, d, now))
    else
      var m := s.dodag.value;
      if d.version == m.version then Some(s)
      else if m.temporary then
        Some(if Newer(d.version, m.version) then s.(dodag := Some(m.(version := d.version))) else s)
      else if FollowsVersion(m, d) then Some(Join(Leave(s, now), d, now))
      else None
  }

  function Heard(m: Membership, d: Dio, from: Address, sample: nat, now: Time): Membership {
    var known := from in m.parents;
    var pathEtx := if d.pathEtx.Some? then d.pathEtx.value else if known then m.parents[from].pathEtx else 0;
    var was := if known then LinkEtx.Link(m.parents[from].freshness, m.parents[from].etx) else LinkEtx.UNHEARD;
    var link := LinkEtx.Refreshed(was, sample);
    m.(parents := m.parents[from := Parent(d.rank, d.dtsn, now, link.freshness, link.etx, pathEtx)])
  }

  /** A neighbour poisoning its routes stops being a parent, and is sent a withdrawal if it was the preferred one. */
  function Poisoned(m: Membership, from: Address, hasAddress: bool): Membership {
    m.(parents := m.parents - {from},
       pathSequence := if from == m.preferred && hasAddress && !m.temporary
                       then Increment(m.pathSequence) else m.pathSequence)
  }

  ghost predicate Reselects(s: State, m: Membership, now: Time, hasAddress: bool, s': State) {
    exists v :: Selects(m, now, hasAddress, v) && s' == Settle(s, v, now)
  }

  /** The withdrawals one call of SelectPreferredParent sends: to a preferred parent gone stale, or to one still held
      that it switches away from or loses. Never both. */
  function Withdraws(m: Membership, now: Time, choice: Address, hasAddress: bool): seq<Withdrawal> {
    if !hasAddress || m.temporary || m.preferred == ANY || m.preferred !in m.parents then []
    else if Stale(m, now, m.parents[m.preferred]) || choice != m.preferred
    then [Withdrawal(m.preferred, Increment(m.pathSequence))]
    else []
  }

  /** From the withdrawals `before` to those `after` one call. */
  ghost predicate Reports(m: Membership, now: Time, hasAddress: bool, before: seq<Withdrawal>, after: seq<Withdrawal>) {
    exists choice :: Chooses(Sweep(m, now, hasAddress), choice)
                     && after == before + Withdraws(m, now, choice, hasAddress)
  }

  /** The preferred parent is sent a withdrawal before it is dropped for poisoning. */
  function PoisonerTold(m: Membership, from: Address, hasAddress: bool): seq<Withdrawal> {
    if from == m.preferred && hasAddress && !m.temporary then [Withdrawal(from, Increment(m.pathSequence))] else []
  }

  ghost predicate DioReports(s: State, d: Dio, from: Address, sample: nat, now: Time, hasAddress: bool,
                             before: seq<Withdrawal>, after: seq<Withdrawal>) {
    if d.rank == INFINITE_RANK then
      if s.dodag.None? then after == before
      else
        var m := s.dodag.value;
        Reports(Poisoned(m, from, hasAddress), now, hasAddress, before + PoisonerTold(m, from, hasAddress), after)
    else
      match Admit(s, d, now)
      case None => after == before
      case Some(joined) =>
        joined.dodag.Some? && Reports(Heard(joined.dodag.value, d, from, sample, now), now, hasAddress, before, after)
  }

  ghost predicate HandlesDio(s: State, d: Dio, from: Address, sample: nat, now: Time, hasAddress: bool, s': State) {
    if d.rank == INFINITE_RANK then
      if s.dodag.None? then s' == s
      else Reselects(s, Poisoned(s.dodag.value, from, hasAddress), now, hasAddress, s')
    else
      match Admit(s, d, now)
      case None => s' == s
      case Some(joined) =>
        joined.dodag.Some? && Reselects(joined, Heard(joined.dodag.value, d, from, sample, now), now, hasAddress, s')
  }

  /** The Trickle timer re-evaluates the parent before it lets a DIO out. */
  ghost predicate HandlesFire(s: State, now: Time, hasAddress: bool, s': State) {
    if s.dodag.None? then s' == s else Reselects(s, s.dodag.value, now, hasAddress, s')
  }

  /** An interface going down takes the neighbours heard over it along, to whom no withdrawal is sent. */
  function Disconnected(m: Membership, over: set<Address>): Membership {
    m.(parents := m.parents - over)
  }

  ghost predicate HandlesDown(s: State, over: set<Address>, now: Time, hasAddress: bool, s': State) {
    if s.dodag.None? then s' == s else Reselects(s, Disconnected(s.dodag.value, over), now, hasAddress, s')
  }

  // ---------------------------------------------------------------- the router

  class RplRouter {
    var dodag: Option<Membership>
    var retained: seq<RetainedRank>
    var retainedPathSequence: Option<Byte>
    /** The No-Path DAOs sent, oldest first. */
    var withdrawn: seq<Withdrawal>

    constructor ()
      ensures Current() == State(None, [], None) && withdrawn == []
    {
      dodag, retained, retainedPathSequence, withdrawn := None, [], None, [];
    }

    function Current(): State
      reads this
    {
      State(dodag, retained, retainedPathSequence)
    }

    method SendNoPathDao(via: Address, hasAddress: bool)
      requires dodag.Some?
      modifies this`dodag, this`withdrawn
      ensures var bump := hasAddress && !old(dodag.value).temporary;
              && dodag == Some(old(dodag.value).(pathSequence := if bump then Increment(old(dodag.value).pathSequence)
                                                                 else old(dodag.value).pathSequence))
              && withdrawn == old(withdrawn) + if bump then [Withdrawal(via, dodag.value.pathSequence)] else []
    {
      if !dodag.value.temporary && hasAddress {
        dodag := Some(dodag.value.(pathSequence := Increment(dodag.value.pathSequence)));
        withdrawn := withdrawn + [Withdrawal(via, dodag.value.pathSequence)];
      }
    }

    /** The stale-neighbour loop; neighbours go one at a time, the preferred one only after being sent a
        withdrawal. */
    method SweepStale(now: Time, hasAddress: bool)
      requires dodag.Some?
      modifies this`dodag, this`withdrawn
      ensures dodag == Some(Sweep(old(dodag.value), now, hasAddress))
      ensures var m := old(dodag.value);
              withdrawn == old(withdrawn) +
              if m.preferred in m.parents && Stale(m, now, m.parents[m.preferred]) && hasAddress && !m.temporary
              then [Withdrawal(m.preferred, Increment(m.pathSequence))] else []
    {
      ghost var m0 := dodag.value;
      var rest := dodag.value.parents.Keys;
      while rest != {}
        invariant dodag.Some? && rest <= m0.parents.Keys
        invariant dodag.value.parents == map a | a in m0.parents && (a in rest || !Stale(m0, now, m0.parents[a]))
                                           :: m0.parents[a]
        invariant dodag.value == m0.(parents := dodag.value.parents, pathSequence := dodag.value.pathSequence)
        invariant var bump := m0.preferred in m0.parents && m0.preferred !in rest
                              && Stale(m0, now, m0.parents[m0.preferred]) && hasAddress && !m0.temporary;
                  && dodag.value.pathSequence == (if bump then Increment(m0.pathSequence) else m0.pathSequence)
                  && withdrawn == old(withdrawn) +
                     if bump then [Withdrawal(m0.preferred, Increment(m0.pathSequence))] else []
        decreases |rest|
      {
        var a :| a in rest;
        if Stale(dodag.value, now, dodag.value.parents[a]) {
          if a == dodag.value.preferred {
            SendNoPathDao(a, hasAddress);
          }
          dodag := Some(dodag.value.(parents := dodag.value.parents - {a}));
        }
        rest := rest - {a};
      }
      assert dodag.value.parents == Live(m0, now);
    }

    /** The records neither lapsed nor of this Version. */
    method SurvivingRecords(version: Byte, now: Time) returns (kept: seq<RetainedRank>)
      ensures kept == Surviving(retained, version, now)
    {
      kept := [];
      assert Surviving(retained[..0], version, now) == [];
      hide Surviving;
      var i := 0;
      while i < |retained|
        invariant 0 <= i <= |retained|
        invariant kept == Surviving(retained[..i], version, now)
      {
        SurvivingOneMore(retained[..i], retained[i], version, now);
        assert retained[..i + 1] == retained[..i] + [retained[i]];
        if !(retained[i].expires <= now || retained[i].version == version) {
          kept := kept + [retained[i]];
        }
        i := i + 1;
      }
      assert retained[..i] == retained;
    }

    method LeaveDodag(now: Time)
      requires dodag.Some?
      modifies this`dodag, this`retained, this`retainedPathSequence
      ensures Current() == Leave(old(Current()), now)
    {
      var m := dodag.value;
      if !m.temporary {
        retainedPathSequence := Some(m.pathSequence);
        var kept := SurvivingRecords(m.version, now);
        retained := kept + [RetainedRank(m.version, m.lowest, now + m.window)];
        if |retained| > RETAINED_VERSIONS {
          retained := retained[1..];
        }
      }
      dodag := None;
    }

    method JoinDodag(d: Dio, now: Time)
      requires dodag.None?
      modifies this`dodag
      ensures Current() == Join(old(Current()), d, now)
    {
      var lowest := INFINITE_RANK;
      var i := 0;
      while i < |retained|
        invariant 0 <= i <= |retained|
        invariant lowest == Restored(retained[..i], d.version, now)
      {
        assert retained[..i + 1][..i] == retained[..i];
        if retained[i].expires > now && retained[i].version == d.version {
          lowest := retained[i].lowest;
        }
        i := i + 1;
      }
      assert retained[..i] == retained;
      dodag := Some(Membership(d.version, INFINITE_RANK, 0, d.conf.mrhof, d.conf.minHop, d.conf.maxInc, lowest,
                               d.conf.window, d.temporary, map[], ANY,
                               if retainedPathSequence.Some? then retainedPathSequence.value else 0));
    }

    /** Sweeps, chooses and commits. A router that loses its last parent poisons and leaves. A switch withdraws
        through the parent left, one Path Sequence behind the re-advertisement that will follow. */
    method SelectPreferredParent(now: Time, hasAddress: bool) returns (changed: bool)
      requires dodag.Some? && ANY !in dodag.value.parents
      modifies this
      ensures Reselects(old(Current()), old(dodag.value), now, hasAddress, Current())
      ensures var s := Sweep(old(dodag.value), now, hasAddress);
              exists choice :: Chooses(s, choice) && (choice == ANY || choice in s.parents)
                               && changed == !Unchanged(s, choice)
                               && withdrawn == old(withdrawn) + Withdraws(old(dodag.value), now, choice, hasAddress)
      ensures !changed ==> Current() == old(Current()).(dodag := Some(Sweep(old(dodag.value), now, hasAddress)))
    {
      hide Chooses, RankVia, PathCost, Ceiling, Stale;
      SweepStale(now, hasAddress);
      ghost var s := dodag.value;
      var choice := Choose(dodag.value);
      var v := Outcome(dodag.value, choice, hasAddress);
      assert Selects(old(dodag.value), now, hasAddress, v);
      changed := !Unchanged(dodag.value, choice);
      if !changed {
        return;
      }
      var left := dodag.value.preferred;
      if choice == ANY {
        if left != ANY && left in dodag.value.parents {
          SendNoPathDao(left, hasAddress);
        }
        LeaveDodag(now);
        return;
      }
      dodag := Some(Adopt(dodag.value, choice));
      if choice != left && !dodag.value.temporary {
        if left != ANY && left in dodag.value.parents {
          SendNoPathDao(left, hasAddress);
        }
        dodag := Some(dodag.value.(pathSequence := Increment(dodag.value.pathSequence)));
      }
      assert v == Stays(dodag.value, true);
    }

    method HandleDio(d: Dio, from: Address, sample: nat, now: Time, hasAddress: bool)
      requires from != ANY && (dodag.Some? ==> ANY !in dodag.value.parents)
      modifies this
      ensures HandlesDio(old(Current()), d, from, sample, now, hasAddress, Current())
      ensures DioReports(old(Current()), d, from, sample, now, hasAddress, old(withdrawn), withdrawn)
    {
      hide Selects, Chooses, Withdraws, Sweep, Unchanged;
      if d.rank == INFINITE_RANK {
        if dodag.Some? {
          if from == dodag.value.preferred {
            SendNoPathDao(from, hasAddress);
          }
          dodag := Some(dodag.value.(parents := dodag.value.parents - {from}));
          var _ := SelectPreferredParent(now, hasAddress);
        }
        return;
      }
      if dodag.None? {
        if exists r | r in retained :: r.expires > now && Compare(d.version, r.version) == Less {
          return;
        }
        JoinDodag(d, now);
      } else if d.version != dodag.value.version {
        if dodag.value.temporary {
          if Newer(d.version, dodag.value.version) {
            dodag := Some(dodag.value.(version := d.version));
          }
        } else if FollowsVersion(dodag.value, d) {
          LeaveDodag(now);
          JoinDodag(d, now);
        } else {
          return;
        }
      }
      ghost var joined := Current();
      assert Admit(old(Current()), d, now) == Some(joined);
      dodag := Some(Heard(dodag.value, d, from, sample, now));
      var _ := SelectPreferredParent(now, hasAddress);
    }

    method DioTrickleFire(now: Time, hasAddress: bool)
      requires dodag.Some? ==> ANY !in dodag.value.parents
      modifies this
      ensures HandlesFire(old(Current()), now, hasAddress, Current())
      ensures if old(dodag).None? then withdrawn == old(withdrawn)
              else Reports(old(dodag).value, now, hasAddress, old(withdrawn), withdrawn)
    {
      if dodag.Some? {
        var _ := SelectPreferredParent(now, hasAddress);
      }
    }

    /** `over`: the addresses heard over the interface that goes down. */
    method StopInterface(over: set<Address>, now: Time, hasAddress: bool)
      requires dodag.Some? ==> ANY !in dodag.value.parents
      modifies this
      ensures HandlesDown(old(Current()), over, now, hasAddress, Current())
      ensures if old(dodag).None? then withdrawn == old(withdrawn)
              else Reports(Disconnected(old(dodag).value, over), now, hasAddress, old(withdrawn), withdrawn)
    {
      if dodag.None? {
        return;
      }
      ghost var m0 := dodag.value;
      var rest := dodag.value.parents.Keys;
      while rest != {}
        invariant rest <= m0.parents.Keys && dodag.Some? && Current() == old(Current()).(dodag := dodag)
        invariant withdrawn == old(withdrawn)
        invariant dodag.value == m0.(parents := dodag.value.parents)
        invariant dodag.value.parents == map a | a in m0.parents && (a in rest || a !in over) :: m0.parents[a]
        decreases |rest|
      {
        var a :| a in rest;
        if a in over {
          dodag := Some(dodag.value.(parents := dodag.value.parents - {a}));
        }
        rest := rest - {a};
      }
      assert dodag.value.parents == m0.parents - over;
      var _ := SelectPreferredParent(now, hasAddress);
    }
  }
}
