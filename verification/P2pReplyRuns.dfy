/** What a P2P-RPL Target's replies come to: exactly which DIOs begin a cycle and what each event sends, and, over runs,
    that an unacknowledged reply is repeated until its budget is spent (sections 7, 9.5 and 10 of RFC 6997). */
module P2pReplyRuns {
  import opened Paths
  import opened RplTypes
  import opened P2pReply

  // ---------------------------------------------------------------- one event

  /** Not stopped, not through this router already, and the first to be adopted or, unless this Target alone is sought,
      from the preferred parent. */
  predicate Heeds(c: Config, t: Target, d: Rdo) {
    !t.stopped && c.own !in d.heard && (t.vector == [] || (d.fromPreferred && (t.isTarget ==> t.others)))
  }

  /** The route is one to answer: a reply is asked of this router, and this is not the route answered last. */
  predicate Answers(c: Config, t: Target, d: Rdo) {
    && Heeds(c, t, d) && |d.heard| < d.capacity && (t.isTarget || d.names) && d.reply
    && d.heard + [c.own] != t.lastReplied
  }

  predicate Collects(d: Rdo) {
    !d.hopByHop && d.asks > 0
  }

  /** What a DIO heeded tells of the discovery, with the route it completes. */
  function Told(c: Config, t: Target, d: Rdo, alternates: seq<Path>): Target {
    t.(vector := d.heard + [c.own], numRoutes := if Collects(d) then d.asks else 0, reply := d.reply,
       isTarget := t.isTarget || d.names, others := d.others, alternates := alternates)
  }

  /** A cycle begins with one P2P-DRO under the next Seq, unless other source routes are asked for: then a window opens
      and takes the retry timer's place. */
  lemma BegunExactly(c: Config, t: Target)
    ensures var o := Begun(c, t);
            && o.sent == (if t.numRoutes > 0 then []
                          else [Dro(true, t.vector, (t.sequenceNumber + 1) % 4, !t.others, c.ackRequested)])
            && o.target == t.(lastReplied := t.vector, sequenceNumber := (t.sequenceNumber + 1) % 4,
                              ackPending := c.ackRequested, retriesLeft := c.maxRetransmissions,
                              collecting := t.numRoutes > 0,
                              retryArmed := if t.numRoutes > 0 then t.collecting && t.retryArmed
                                            else t.retryArmed || c.ackRequested)
  {
  }

  /** A DIO not heeded sends nothing and leaves all but the alternates alone; one heeded tells this router what it asks
      for, ends the stay if the vector does not fit, and begins a cycle exactly when it has a route to answer. */
  lemma DioExactly(c: Config, t: Target, d: Rdo)
    ensures var o := HandleRdo(c, t, d);
            var told := Told(c, t, d, o.target.alternates);
            if !Heeds(c, t, d) then o == Outcome(t.(alternates := o.target.alternates), [])
            else if d.capacity < |d.heard| + 1 then
              o == Outcome(told.(member := false, collecting := false, retryArmed := false), [])
            else o == if Answers(c, t, d) then Begun(c, told) else Outcome(told, [])
  {
    RecordedAre(c, t, d);
    var u := Recorded(c, t, d);
    hide Recorded, Erased;
    if Heeds(c, t, d) {
      TakenExactly(c, u, d);
      BegunExactly(c, Told(c, u, d, Erased(u.alternates, d.heard + [c.own])));
      hide TakeRdo, Begun;
    }
  }

  lemma TakenExactly(c: Config, t: Target, d: Rdo)
    ensures var route := d.heard + [c.own];
            var told := Told(c, t, d, Erased(t.alternates, route));
            var answers := (t.isTarget || d.names) && d.reply && route != t.lastReplied;
            if d.capacity < |route| then
              TakeRdo(c, t, d) == Outcome(told.(member := false, collecting := false, retryArmed := false), [])
            else TakeRdo(c, t, d) == if answers then Begun(c, told) else Outcome(told, [])
  {
    hide Begun, Erased;
  }

  /** The alternates a DIO leaves: a Target asked for N weighs the route as one more; the rest stay but for the first of
      the longest, which a strictly shorter newcomer displaces once there are N. What is adopted is no alternate. */
  lemma AlternatesExactly(c: Config, t: Target, d: Rdo)
    requires RepeatFree(t.alternates)
    ensures var a, route := HandleRdo(c, t, d).target.alternates, d.heard + [c.own];
            var weighs := !t.stopped && c.own !in d.heard && t.isTarget && Collects(d) && |route| <= d.capacity
                          && route != t.vector && route !in t.alternates;
            var displaced := weighs && |t.alternates| >= d.asks && exists x :: x in t.alternates && |x| > |route|;
            && RepeatFree(a)
            && (route in a <==> !Heeds(c, t, d)
                                && (route in t.alternates || (weighs && (|t.alternates| < d.asks || displaced))))
            && (forall x :: x in a ==> x in t.alternates || x == route)
            && (!displaced ==> forall x :: x in t.alternates && x != route ==> x in a)
            && (displaced ==> exists x :: x in t.alternates && x !in a && (forall y :: y in t.alternates ==> |y| <= |x|)
                                          && forall y :: y in t.alternates && y != x && y != route ==> y in a)
  {
    var route, r := d.heard + [c.own], Recorded(c, t, d).alternates;
    RecordingKeepsDistinct(c, t, d);
    ErasedIs(r, route);
    WeighedExactly(c, t, d);
    AlternatesLeft(c, t, d);
    hide Erased, Recorded, RepeatFree, HandleRdo;
  }

  lemma AlternatesLeft(c: Config, t: Target, d: Rdo)
    ensures var r := Recorded(c, t, d).alternates;
            HandleRdo(c, t, d).target.alternates
            == if t.stopped || c.own in d.heard then t.alternates
               else if Heeds(c, t, d) then Erased(r, d.heard + [c.own]) else r
  {
    TakenExactly(c, Recorded(c, t, d), d);
    BegunExactly(c, Told(c, Recorded(c, t, d), d, Erased(Recorded(c, t, d).alternates, d.heard + [c.own])));
    RecordedAre(c, t, d);
    hide Erased, Recorded, TakeRdo, Begun;
  }

  lemma WeighedExactly(c: Config, t: Target, d: Rdo)
    requires RepeatFree(t.alternates)
    ensures var a, route := Recorded(c, t, d).alternates, d.heard + [c.own];
            var weighs := t.isTarget && Collects(d) && |route| <= d.capacity && route != t.vector
                          && route !in t.alternates;
            var displaced := weighs && |t.alternates| >= d.asks && exists x :: x in t.alternates && |x| > |route|;
            && (route in a <==> route in t.alternates || (weighs && (|t.alternates| < d.asks || displaced)))
            && (forall x :: x in a ==> x in t.alternates || x == route)
            && (!displaced ==> forall x :: x in t.alternates ==> x in a)
            && (displaced ==> exists x :: x in t.alternates && x !in a && (forall y :: y in t.alternates ==> |y| <= |x|)
                                          && forall y :: y in t.alternates && y != x ==> y in a)
  {
    var route := d.heard + [c.own];
    if route !in t.alternates {
      PlacedExactly(t.alternates, route, d.asks);
    }
    WeighedOrNot(c, t, d);
    hide Recorded, Placed, RepeatFree;
  }

  lemma WeighedOrNot(c: Config, t: Target, d: Rdo)
    ensures var route := d.heard + [c.own];
            Recorded(c, t, d).alternates
            == if t.isTarget && Collects(d) && |route| <= d.capacity && route != t.vector && route !in t.alternates
               then Placed(t.alternates, route, d.asks) else t.alternates
  {
    hide Worst;
  }

  lemma PlacedExactly(routes: seq<Path>, route: Path, room: nat)
    requires RepeatFree(routes) && route !in routes
    ensures var a := Placed(routes, route, room);
            var displaced := |routes| >= room && exists x :: x in routes && |x| > |route|;
            && (route in a <==> |routes| < room || displaced)
            && (forall x :: x in a ==> x in routes || x == route)
            && (!displaced ==> forall x :: x in routes ==> x in a)
            && (displaced ==> exists x :: x in routes && x !in a && (forall y :: y in routes ==> |y| <= |x|)
                                          && forall y :: y in routes && y != x ==> y in a)
  {
    if routes != [] {
      LongestIs(routes, route);
      Displaced(routes, Worst(routes), route);
      hide Worst, RepeatFree;
    }
  }

  lemma LongestIs(routes: seq<Path>, route: Path)
    requires routes != []
    ensures forall y :: y in routes ==> |y| <= |routes[Worst(routes)]|
    ensures (exists x :: x in routes && |x| > |route|) <==> |routes[Worst(routes)]| > |route|
  {
    forall y | y in routes ensures |y| <= |routes[Worst(routes)]| {
      var i :| 0 <= i < |routes| && routes[i] == y;
    }
  }

  lemma Displaced(routes: seq<Path>, w: nat, route: Path)
    requires RepeatFree(routes) && w < |routes| && route !in routes
    ensures var a := routes[w := route];
            route in a && routes[w] !in a && forall y :: y in a <==> (y in routes && y != routes[w]) || y == route
  {
    var a := routes[w := route];
    assert a[w] == route;
    forall y | y in routes && y != routes[w] ensures y in a {
      var i :| 0 <= i < |routes| && routes[i] == y;
      assert a[i] == y;
    }
  }

  /** A retry due repeats the reply while one is waited for and tries are left; the last leaves nothing waited for. */
  lemma RetryExactly(c: Config, t: Target)
    ensures var o, again := RetryDue(c, t), t.ackPending && t.retriesLeft > 0;
            && o.sent == (if again then [Dro(true, t.vector, t.sequenceNumber, !t.others, c.ackRequested)] else [])
            && o.target == t.(retryArmed := again && c.ackRequested, ackPending := again,
                              retriesLeft := if again then t.retriesLeft - 1 else t.retriesLeft)
  {
  }

  /** When the window ends, the main route is sent and then every alternate that differs from it or, if there are more,
      as many as were asked for; they are then forgotten. A Target no longer asked to reply sends nothing. */
  lemma WindowExactly(c: Config, t: Target)
    requires RepeatFree(t.alternates)
    ensures var o := WindowDue(c, t);
            if !t.isTarget || !t.reply then o == Outcome(t.(collecting := false, alternates := []), [])
            else if t.vector == [] then o == Outcome(t.(collecting := false), [])
            else
              && o.target == t.(collecting := false, alternates := [], retryArmed := t.retryArmed || c.ackRequested)
              && |o.sent| > 0
              && o.sent[0] == Dro(true, t.vector, t.sequenceNumber, !t.others, c.ackRequested)
              && (forall i :: 0 < i < |o.sent| ==>
                    && o.sent[i] == Dro(false, o.sent[i].route, t.sequenceNumber, !t.others, false)
                    && o.sent[i].route in t.alternates && o.sent[i].route != t.vector)
              && (forall r :: r in t.alternates && r != t.vector ==>
                    r in Routes(o.sent) || |o.sent| == t.numRoutes + 1)
  {
    var routes := Others(t.alternates, t.vector, t.numRoutes);
    OthersAre(t.alternates, t.vector, t.numRoutes);
    NoneLeftOut(t.alternates, t.vector, t.numRoutes);
    BatchIs(t, MainDro(c, t), routes);
    SameDros(t, t.(collecting := false), routes);
    hide AlternateDros, Others, RepeatFree, Routes;
  }

  lemma BatchIs(t: Target, first: Dro, routes: seq<Path>)
    ensures var sent := [first] + AlternateDros(t, routes);
            && |sent| == 1 + |routes|
            && (forall i :: 0 < i < |sent| ==>
                  sent[i] == Dro(false, sent[i].route, t.sequenceNumber, !t.others, false) && sent[i].route in routes)
            && forall r :: r in routes ==> r in Routes(sent)
  {
    DrosAre(t, routes);
    var dros := AlternateDros(t, routes);
    var sent := [first] + dros;
    hide AlternateDros;
    forall i | 0 < i < |sent|
      ensures sent[i] == Dro(false, routes[i - 1], t.sequenceNumber, !t.others, false) && routes[i - 1] in routes
    {
      assert sent[i] == dros[i - 1];
    }
    forall r | r in routes ensures r in Routes(sent) {
      var i :| 0 <= i < |routes| && routes[i] == r;
      assert Routes(sent)[i + 1] == r;
    }
  }

  lemma DrosAre(t: Target, routes: seq<Path>)
    ensures var dros := AlternateDros(t, routes);
            |dros| == |routes| && forall i :: 0 <= i < |routes| ==>
              dros[i] == Dro(false, routes[i], t.sequenceNumber, !t.others, false)
  {
    if routes == [] {
    } else {
      forall i | 0 <= i < |routes|
        ensures |AlternateDros(t, routes)| == |routes|
        ensures AlternateDros(t, routes)[i] == Dro(false, routes[i], t.sequenceNumber, !t.others, false)
      {
        AlternateDrosAre(t, routes, i);
      }
      AlternateDrosAre(t, routes, 0);
    }
  }

  lemma {:induction false} NoneLeftOut(routes: seq<Path>, main: Path, room: nat)
    ensures forall r :: r in routes && r != main ==>
              r in Others(routes, main, room) || |Others(routes, main, room)| == room
    decreases |routes|
  {
    if routes != [] && room > 0 {
      NoneLeftOut(routes[1..], main, if routes[0] == main then room else room - 1);
      assert forall r :: r in routes ==> r == routes[0] || r in routes[1..];
    }
  }

  // ---------------------------------------------------------------- over runs

  /** A run's world, and whether the present cycle's Seq has been acknowledged. */
  datatype Watched = Watched(w: World, acked: bool)

  function Watch(c: Config, x: Watched, e: Event): Watched {
    var w := Step(c, x.w, e);
    Watched(w, w.cycles == x.w.cycles && (x.acked || e == Ack(x.w.cycles % 4)))
  }

  function Following(c: Config, x: Watched, run: seq<Event>): Watched
    decreases |run|
  {
    if run == [] then x else Following(c, Watch(c, x, run[0]), run[1..])
  }

  /** Once the main P2P-DRO is out, what was sent and what is left make up the whole budget, and unless acknowledged the
      Target waits for its retry timer until all of it is spent. */
  ghost predicate Persists(c: Config, x: Watched) {
    var w, t := x.w, x.w.t;
    && Disciplined(c, w)
    && (w.cycles > 0 ==> t.isTarget) && (w.cycles == 0 ==> w.sends == 0 && !t.collecting)
    && (t.collecting ==> t.retriesLeft == c.maxRetransmissions)
    && (t.retryArmed ==> w.sends > 0)
    && (w.sends > 0 ==> w.sends + t.retriesLeft == 1 + c.maxRetransmissions)
    && (c.ackRequested && !x.acked && t.collecting ==> t.ackPending)
    && (c.ackRequested && !x.acked && t.member && w.sends > 0 ==>
          (t.ackPending && t.retryArmed) || w.sends == 1 + c.maxRetransmissions)
  }

  lemma AnsweringBeginsCycle(c: Config, t: Target, d: Rdo)
    ensures CycleBegins(c, t, Dio(d)) <==> Answers(c, t, d)
  {
    RecordedAre(c, t, d);
    hide Recorded, Erased;
  }

  lemma DioPersists(c: Config, x: Watched, d: Rdo)
    requires Persists(c, x) && Enabled(x.w.t, Dio(d))
    ensures Persists(c, Watch(c, x, Dio(d)))
  {
    DioExactly(c, x.w.t, d);
    BegunExactly(c, Told(c, x.w.t, d, HandleRdo(c, x.w.t, d).target.alternates));
    AnsweringBeginsCycle(c, x.w.t, d);
    StepIsDisciplined(c, x.w, Dio(d));
    MainsOfOne(Dro(true, d.heard + [c.own], (x.w.t.sequenceNumber + 1) % 4, !d.others, c.ackRequested));
    NothingSent();
    hide HandleRdo, CycleBegins, Disciplined, Mains, Begun;
    assert Disciplined(c, x.w);
  }

  lemma WindowSends(c: Config, t: Target)
    requires t.isTarget
    ensures Mains(WindowDue(c, t).sent) == if t.reply && t.vector != [] then 1 else 0
  {
    var rest := AlternateDros(t, Others(t.alternates, t.vector, t.numRoutes));
    AlternatesAreNotMain(t, Others(t.alternates, t.vector, t.numRoutes));
    assert ([MainDro(c, t.(collecting := false))] + rest)[1..] == rest;
  }

  lemma StepPersists(c: Config, x: Watched, e: Event)
    requires Persists(c, x) && Enabled(x.w.t, e)
    ensures Persists(c, Watch(c, x, e))
  {
    StepIsDisciplined(c, x.w, e);
    NothingSent();
    match e
    case Dio(d) => DioPersists(c, x, d);
    case Retry =>
      MainsOfOne(Dro(true, x.w.t.vector, x.w.t.sequenceNumber, !x.w.t.others, c.ackRequested));
      RetryExactly(c, x.w.t);
      hide Mains, RetryDue;
    case Window =>
      WindowSends(c, x.w.t);
      WindowExactly(c, x.w.t);
      hide Mains, WindowDue;
    case Ack(n) =>
    case StopHeard =>
    case Leave =>
  }

  lemma {:induction false} RunPersists(c: Config, x: Watched, run: seq<Event>)
    requires Persists(c, x) && Possible(c, x.w, run)
    ensures Persists(c, Following(c, x, run)) && Following(c, x, run).w == After(c, x.w, run)
    decreases |run|
  {
    if run != [] {
      StepPersists(c, x, run[0]);
      RunPersists(c, Watch(c, x, run[0]), run[1..]);
    }
  }

  /** Over any interleaving, a member whose reply is out and not acknowledged has its retry timer armed for the copies
      still to come, or has sent the first and every retransmission allowed. */
  lemma UnacknowledgedIsRepeated(c: Config, run: seq<Event>)
    requires c.ackRequested && Possible(c, World(FRESH, 0, 0), run)
    ensures var x := Following(c, Watched(World(FRESH, 0, 0), false), run);
            && x.w == After(c, World(FRESH, 0, 0), run)
            && (x.w.t.member && x.w.sends > 0 && !x.acked && x.w.sends != 1 + c.maxRetransmissions ==>
                  x.w.t.retryArmed && RetryDue(c, x.w.t).sent
                  == [Dro(true, x.w.t.vector, x.w.cycles % 4, !x.w.t.others, true)])
  {
    RunPersists(c, Watched(World(FRESH, 0, 0), false), run);
  }
}
