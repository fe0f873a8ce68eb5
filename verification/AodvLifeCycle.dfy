/** A router's stays in an RREQ-Instance over whole runs: what it still has to relay, how often it answers, how long it
    stays and how soon it may come back (sections 4.1 and 6.2.2 of RFC 9854). */
module AodvLifeCycle {
  import opened Lollipop
  import opened RplTypes
  import opened AodvRreq

  datatype Event =
    | Dio(d: Rreq, from: Address, selection: Selection, upward: bool, storedSeqNo: Option<Byte>)
    | Reselect(selection: Selection)
    | Expire

  datatype World = World(router: Router, now: Time)

  /** Time does not run back or past the L deadline. */
  predicate Enabled(w: World, at: Time, e: Event) {
    && w.now <= at
    && (w.router.member.Some? && w.router.member.value.expiry.Some? ==> at <= w.router.member.value.expiry.value)
    && match e
       case Dio(d, _, _, _, _) => Comparable(d)
       case Reselect(_) => w.router.member.Some?
       case Expire => w.router.member.Some? && w.router.member.value.expiry == Some(at)
  }

  function Step(n: Node, w: World, at: Time, e: Event): World
    requires Enabled(w, at, e)
  {
    match e
    case Dio(d, from, s, upward, stored) => World(HandleDio(n, w.router, d, from, at, s, upward, stored), at)
    case Reselect(s) => World(Selected(n, w.router, s, at), at)
    case Expire => World(Leave(n, w.router, at), at)
  }

  type Run = seq<(Time, Event)>

  predicate Possible(n: Node, w: World, run: Run)
    decreases |run|
  {
    run == [] || (Enabled(w, run[0].0, run[0].1) && Possible(n, Step(n, w, run[0].0, run[0].1), run[1..]))
  }

  function After(n: Node, w: World, run: Run): World
    requires Possible(n, w, run)
    decreases |run|
  {
    if run == [] then w else After(n, Step(n, w, run[0].0, run[0].1), run[1..])
  }

  /** The router is a member throughout. */
  predicate Stays(n: Node, w: World, run: Run)
    requires Possible(n, w, run)
    decreases |run|
  {
    w.router.member.Some? && (run == [] || Stays(n, Step(n, w, run[0].0, run[0].1), run[1..]))
  }

  /** A copy with H=0 that meets a record kept from copies with H=1 alone, and so with an empty vector. */
  predicate MeetsForeignRecord(w: World, e: Event) {
    e.Dio? && !e.d.hopByHop && w.router.member.Some? && w.router.member.value.vector == []
  }

  predicate KeepsToH(n: Node, w: World, run: Run)
    requires Possible(n, w, run)
    decreases |run|
  {
    run == []
    || (!MeetsForeignRecord(w, run[0].1) && KeepsToH(n, Step(n, w, run[0].0, run[0].1), run[1..]))
  }

  /** A member has processed a copy, is not barred, and holds its own address in no record. */
  predicate Sound(n: Node, r: Router) {
    r.member.Some? ==> r.member.value.seeded && r.barredUntil.None? && n.own !in r.member.value.targets
  }

  predicate AnsweredOnce(r: Router) {
    r.member.Some? ==> r.member.value.replies <= 1 && (r.member.value.replies == 1 ==> r.member.value.isTarget)
  }

  lemma {:induction false} IntersectedIsPart(stored: seq<Address>, incoming: seq<Address>)
    ensures forall t :: t in Intersected(stored, incoming) <==> t in stored && t in incoming
  {
    if stored != [] {
      IntersectedIsPart(stored[1..], incoming);
    }
  }

  lemma {:induction false} WithoutIs(targets: seq<Address>, own: Address)
    ensures forall t :: t in Without(targets, own) <==> t in targets && t != own
  {
    if targets != [] {
      WithoutIs(targets[1..], own);
    }
  }

  lemma RecordedIs(n: Node, m: Member, d: Rreq, now: Time)
    requires d.targets != []
    ensures forall t :: t in Recorded(n, m, d, now).targets <==> t in Remaining(m, d) && t != n.own
    ensures AlreadyProcessed(m, d.hopByHop) ==> forall t :: t in Remaining(m, d) <==> t in m.targets && t in d.targets
  {
    IntersectedIsPart(m.targets, d.targets);
    WithoutIs(Remaining(m, d), n.own);
  }

  /** A copy gets as far as the record of a member: neither refused nor poison, a parent found, and not ignored. */
  predicate Reaches(n: Node, r: Router, at: Time, e: Event)
    requires e.Dio? && Comparable(e.d) && r.member.Some?
  {
    && !Refuses(n, r, e.d, at, e.storedSeqNo) && e.d.rank != INFINITE_RANK && e.selection.Prefers?
    && !Ignores(r.member.value.(preferred := e.selection.parent), e.d, e.from)
  }

  predicate Reseeds(n: Node, r: Router, at: Time, e: Event)
    requires e.Dio? ==> Comparable(e.d)
    requires r.member.Some?
  {
    && e.Dio? && Reaches(n, r, at, e) && !e.d.hopByHop && r.member.value.vector == []
    && |e.d.vector| < ADDRESS_VECTOR_MAX_ENTRIES
  }

  /** Exactly when a step brings back a target that is not in the record, and exactly when it gives rise to another
      RREP: when a copy with H=0 that names it reaches a record kept from copies with H=1 alone. */
  lemma ReturnsExactly(n: Node, w: World, at: Time, e: Event, t: Address)
    requires Sound(n, w.router) && Enabled(w, at, e) && w.router.member.Some?
    requires Step(n, w, at, e).router.member.Some?
    requires t !in w.router.member.value.targets && t != n.own
    ensures var m, m' := w.router.member.value, Step(n, w, at, e).router.member.value;
            && (t in m'.targets <==> Reseeds(n, w.router, at, e) && t in e.d.targets)
            && (m'.replies > m.replies <==> Reseeds(n, w.router, at, e) && n.own in e.d.targets)
  {
    if e.Dio? && Reaches(n, w.router, at, e) {
      RecordedIs(n, w.router.member.value.(preferred := e.selection.parent), e.d, at);
    }
  }

  lemma StepIsSound(n: Node, w: World, at: Time, e: Event)
    requires Sound(n, w.router) && Enabled(w, at, e)
    ensures Sound(n, Step(n, w, at, e).router)
    ensures !MeetsForeignRecord(w, e) && AnsweredOnce(w.router) ==> AnsweredOnce(Step(n, w, at, e).router)
  {
    if e.Dio? && !Refuses(n, w.router, e.d, at, e.storedSeqNo) && e.d.rank != INFINITE_RANK && e.selection.Prefers? {
      var m := if w.router.member.None? then FRESH_MEMBER else w.router.member.value;
      RecordedIs(n, m.(preferred := e.selection.parent), e.d, at);
    }
  }

  /** A step that brings no copy to a foreign record brings no target back. */
  lemma StepShrinks(n: Node, w: World, at: Time, e: Event)
    requires Sound(n, w.router) && Enabled(w, at, e) && !MeetsForeignRecord(w, e)
    requires w.router.member.Some? && Step(n, w, at, e).router.member.Some?
    ensures forall t :: t in Step(n, w, at, e).router.member.value.targets ==> t in w.router.member.value.targets
  {
    StepIsSound(n, w, at, e);
    forall t | t in Step(n, w, at, e).router.member.value.targets && t !in w.router.member.value.targets
      ensures false
    {
      ReturnsExactly(n, w, at, e, t);
    }
  }

  lemma {:induction false} RunIsSound(n: Node, w: World, run: Run)
    requires Sound(n, w.router) && Possible(n, w, run)
    ensures Sound(n, After(n, w, run).router)
    ensures AnsweredOnce(w.router) && KeepsToH(n, w, run) ==> AnsweredOnce(After(n, w, run).router)
    decreases |run|
  {
    if run != [] {
      StepIsSound(n, w, run[0].0, run[0].1);
      RunIsSound(n, Step(n, w, run[0].0, run[0].1), run[1..]);
    }
  }

  /** However long a router has been at it, it has answered at most once in its membership. */
  lemma AnswersAtMostOnce(n: Node, run: Run, begin: Time)
    requires Possible(n, World(Router(None, None), begin), run) && KeepsToH(n, World(Router(None, None), begin), run)
    ensures var r := After(n, World(Router(None, None), begin), run).router;
            r.member.Some? ==> r.member.value.replies <= 1
  {
    RunIsSound(n, World(Router(None, None), begin), run);
  }

  /** During a stay the record of targets only shrinks: what has been deleted from it never returns. */
  lemma {:induction false} TargetsOnlyShrink(n: Node, w: World, run: Run)
    requires Sound(n, w.router) && Possible(n, w, run) && Stays(n, w, run) && KeepsToH(n, w, run)
    ensures After(n, w, run).router.member.Some?
    ensures forall t :: t in After(n, w, run).router.member.value.targets ==> t in w.router.member.value.targets
    ensures After(n, w, run).router.member.value.targets != [] ==> w.router.member.value.targets != []
    decreases |run|
  {
    if run != [] {
      StepIsSound(n, w, run[0].0, run[0].1);
      StepShrinks(n, w, run[0].0, run[0].1);
      TargetsOnlyShrink(n, Step(n, w, run[0].0, run[0].1), run[1..]);
      var targets := After(n, w, run).router.member.value.targets;
      if targets != [] {
        assert targets[0] in targets;
      }
    }
  }

  /** Once the record is empty the router relays the RREQ no more, for the rest of its stay. */
  lemma EmptyRecordSilences(n: Node, w: World, run: Run)
    requires Sound(n, w.router) && Possible(n, w, run) && Stays(n, w, run) && KeepsToH(n, w, run)
    requires w.router.member.value.targets == []
    ensures After(n, w, run).router.member.Some? && !SendsRreq(After(n, w, run).router.member.value)
  {
    TargetsOnlyShrink(n, w, run);
  }

  /** Why the copies must keep to H: after a copy with H=1 and one that deletes 3, one with H=0 brings 3 back. */
  lemma ChangingHReseeds(n: Node, now: Time)
    requires n.own == 1 && n.origin == 2
    ensures exists m: Member, e: Event ::
              && Sound(n, Router(Some(m), None)) && m.targets == []
              && Enabled(World(Router(Some(m), None), now), now, e)
              && var r := Step(n, World(Router(Some(m), None), now), now, e).router;
                 r.member.Some? && r.member.value.targets == [3]
  {
    var m := FRESH_MEMBER.(preferred := 2, seeded := true, hopByHop := true, target := 3);
    var e := Dio(Rreq(true, false, 1, 0, 1, [], [3], 256, 256), 2, Prefers(2), true, None);
    var r := Step(n, World(Router(Some(m), None), now), now, e).router;
    assert Without([3], 1) == [3] + Without([], 1);
    assert r.member.value.targets == [3];
  }

  // ---------------------------------------------------------------- how long a stay lasts

  predicate DueBy(r: Router, deadline: Time) {
    r.member.Some? && r.member.value.expiry.Some? && r.member.value.expiry.value <= deadline
  }

  lemma {:induction false} StayEndsByDeadline(n: Node, w: World, run: Run, deadline: Time)
    requires DueBy(w.router, deadline) && w.now <= deadline && Possible(n, w, run) && Stays(n, w, run)
    ensures After(n, w, run).now <= deadline
    decreases |run|
  {
    if run != [] {
      StayEndsByDeadline(n, Step(n, w, run[0].0, run[0].1), run[1..], deadline);
    }
  }

  /** A copy processed with a nonzero L bounds the rest of the stay by it, and no later copy moves the deadline. */
  lemma StayLastsAtMostL(n: Node, w: World, at: Time, e: Event, run: Run)
    requires e.Dio? && Enabled(w, at, e) && LifetimeSeconds(e.d.lifetime) > 0
    requires !Refuses(n, w.router, e.d, at, e.storedSeqNo) && e.d.rank != INFINITE_RANK && e.selection.Prefers?
    requires w.router.member.None? || w.router.member.value.expiry.None?
    requires w.router.member.Some? ==> Reaches(n, w.router, at, e)
    requires Possible(n, Step(n, w, at, e), run) && Stays(n, Step(n, w, at, e), run)
    ensures After(n, Step(n, w, at, e), run).now <= at + LifetimeSeconds(e.d.lifetime)
  {
    StayEndsByDeadline(n, Step(n, w, at, e), run, at + LifetimeSeconds(e.d.lifetime));
  }

  // ---------------------------------------------------------------- how soon it may return

  predicate KeptOut(w: World, until: Time) {
    w.router.member.Some? ==> w.now >= until
  }

  predicate Away(w: World, until: Time) {
    w.now >= until || (w.router.member.None? && w.router.barredUntil.Some? && w.router.barredUntil.value >= until)
  }

  lemma {:induction false} AwayUntil(n: Node, w: World, run: Run, until: Time)
    requires Away(w, until) && Possible(n, w, run)
    ensures KeptOut(After(n, w, run), until)
    decreases |run|
  {
    if run != [] {
      AwayUntil(n, Step(n, w, run[0].0, run[0].1), run[1..], until);
    }
  }

  predicate Leaves(n: Node, w: World, at: Time, e: Event) {
    Enabled(w, at, e) && w.router.member.Some? && Step(n, w, at, e).router.member.None?
  }

  /** The target on record when the router goes: the copy's first, if it goes over a copy whose vector is full. */
  function TargetAtLeaving(n: Node, w: World, at: Time, e: Event): Address
    requires Leaves(n, w, at, e)
  {
    if e.Dio? && e.d.targets != [] && Reaches(n, w.router, at, e) then e.d.targets[0] else w.router.member.value.target
  }

  /** A stay that ends, however it ends, is followed by no other within REJOIN_REENABLE, provided a target was on
      record. */
  lemma StaysAreApart(n: Node, w: World, at: Time, e: Event, run: Run)
    requires Sound(n, w.router) && Leaves(n, w, at, e) && TargetAtLeaving(n, w, at, e) != ANY
    requires Possible(n, Step(n, w, at, e), run)
    ensures KeptOut(After(n, Step(n, w, at, e), run), at + n.rejoinReenable)
  {
    AwayUntil(n, Step(n, w, at, e), run, at + n.rejoinReenable);
  }

  /** A run that makes the router a member before that time. */
  predicate ReturnsBefore(n: Node, w: World, run: Run, until: Time) {
    Possible(n, w, run) && After(n, w, run).router.member.Some? && After(n, w, run).now < until
  }

  ghost predicate CanReturnBefore(n: Node, w: World, until: Time) {
    exists run :: ReturnsBefore(n, w, run, until)
  }

  const INVITATION := Dio(Rreq(true, true, 0, 0, 0, [], [ANY, 7], 256, 256), 5, Prefers(5), true, None)

  /** Whatever ends a stay, another can begin from the moment REJOIN_REENABLE has passed and no sooner, or at once if
      `::` was the target on record. */
  lemma EarliestReturn(n: Node, w: World, at: Time, e: Event, until: Time)
    requires Sound(n, w.router) && Leaves(n, w, at, e) && n.own != n.origin
    ensures CanReturnBefore(n, Step(n, w, at, e), until)
            <==> until > at + if TargetAtLeaving(n, w, at, e) == ANY then 0 else n.rejoinReenable
  {
    var w' := Step(n, w, at, e);
    var from := at + if TargetAtLeaving(n, w, at, e) == ANY then 0 else n.rejoinReenable;
    assert w'.router.member.None? && w'.now == at;
    assert w'.router.barredUntil == if TargetAtLeaving(n, w, at, e) == ANY then None else Some(from);
    if until <= from {
      forall run | Possible(n, w', run)
        ensures !ReturnsBefore(n, w', run, until)
      {
        AwayUntil(n, w', run, from);
      }
    } else {
      var run := [(from, INVITATION)];
      assert run[1..] == [];
      assert Possible(n, Step(n, w', from, INVITATION), []);
      assert After(n, w', run) == Step(n, w', from, INVITATION);
      assert ReturnsBefore(n, w', run, until);
    }
  }

  /** Such a run from the start: a copy whose first ART names `::`, the parent lost, the same copy at that instant. */
  lemma AnyTargetIsNotBarred(n: Node, now: Time)
    requires n.own != n.origin && n.rejoinReenable > 0
    ensures var w0 := World(Router(None, None), now);
            && Enabled(w0, now, INVITATION)
            && var w1 := Step(n, w0, now, INVITATION);
               && Leaves(n, w1, now, Reselect(Loses))
               && var w2 := Step(n, w1, now, Reselect(Loses));
                  Enabled(w2, now, INVITATION) && Step(n, w2, now, INVITATION).router.member.Some?
  {
  }
}
