/** A P2P-RPL Target's replies: when a cycle of P2P-DROs begins, what it sends, and what ends it (sections 7, 9.5 and
    10 of RFC 6997). */
module P2pReply {
  import opened RplTypes
  import opened Paths
  import FloodPaths

  type Path = FloodPaths.Path

  const SEQUENCE_SIZE := 4

  datatype Config = Config(own: Address, ackRequested: bool, maxRetransmissions: nat)

  /** A P2P mode DIO as the Target meets it. `names`: it names this router; `others`: it names other targets;
      `capacity`: how many entries the option holds for this vector and target. */
  datatype Rdo = Rdo(heard: Path, asks: nat, reply: bool, hopByHop: bool, names: bool, others: bool,
                     fromPreferred: bool, capacity: nat)

  datatype Target = Target(
    vector: Path, lastReplied: Path, alternates: seq<Path>, numRoutes: nat, reply: bool, isTarget: bool, others: bool,
    sequenceNumber: nat, ackPending: bool, retriesLeft: nat, collecting: bool, retryArmed: bool, stopped: bool,
    member: bool)

  const FRESH := Target([], [], [], 0, false, false, false, 0, false, 0, false, false, false, true)

  /** A P2P-DRO sent; the main one of a reply is the one that is acknowledged and retried. */
  datatype Dro = Dro(main: bool, route: Path, sequenceNumber: nat, stop: bool, ackRequested: bool)

  datatype Outcome = Outcome(target: Target, sent: seq<Dro>)

  // ---------------------------------------------------------------- alternate routes

  /** The first of the longest. */
  function Worst(routes: seq<Path>): (w: nat)
    requires routes != []
    ensures w < |routes| && forall i :: 0 <= i < |routes| ==> |routes[i]| <= |routes[w]|
    ensures forall i :: 0 <= i < w ==> |routes[i]| < |routes[w]|
  {
    if |routes| == 1 then 0
    else
      var w := Worst(routes[..|routes| - 1]);
      if |routes[w]| < |routes[|routes| - 1]| then |routes| - 1 else w
  }

  function Placed(routes: seq<Path>, route: Path, room: nat): seq<Path> {
    if |routes| < room then routes + [route]
    else if routes == [] || |routes[Worst(routes)]| <= |route| then routes
    else routes[Worst(routes) := route]
  }

  function RecordAlternate(c: Config, t: Target, d: Rdo, asked: nat): Target {
    var route := d.heard + [c.own];
    if |route| > d.capacity || route == t.vector || route in t.alternates then t
    else t.(alternates := Placed(t.alternates, route, asked))
  }

  function Erased(routes: seq<Path>, route: Path): seq<Path> {
    if routes == [] then [] else (if routes[0] == route then [] else [routes[0]]) + Erased(routes[1..], route)
  }

  lemma {:induction false} ErasedOneMore(routes: seq<Path>, r: Path, route: Path)
    ensures Erased(routes + [r], route) == Erased(routes, route) + if r == route then [] else [r]
  {
    if routes == [] {
      assert routes + [r] == [r] && [r][1..] == [];
    } else {
      assert (routes + [r])[1..] == routes[1..] + [r];
      ErasedOneMore(routes[1..], r, route);
      Associates(if routes[0] == route then [] else [routes[0]], Erased(routes[1..], route),
                 if r == route then [] else [r]);
    }
  }

  // ---------------------------------------------------------------- the handlers

  function MainDro(c: Config, t: Target): Dro {
    Dro(true, t.vector, t.sequenceNumber, !t.others, c.ackRequested)
  }

  /** Sending the main P2P-DRO arms the retry timer when an acknowledgement is asked for. */
  function SendMain(c: Config, t: Target): Outcome {
    Outcome(t.(retryArmed := t.retryArmed || c.ackRequested), [MainDro(c, t)])
  }

  predicate StartsCycle(t: Target) {
    t.isTarget && t.reply && t.vector != t.lastReplied
  }

  function NewCycle(c: Config, t: Target): Target {
    t.(lastReplied := t.vector, sequenceNumber := (t.sequenceNumber + 1) % SEQUENCE_SIZE, ackPending := c.ackRequested,
       retriesLeft := c.maxRetransmissions)
  }

  /** A new cycle replies at once, or opens a collection window unless one is open. */
  function Begun(c: Config, t: Target): Outcome {
    var n := NewCycle(c, t);
    if t.numRoutes == 0 then SendMain(c, n.(collecting := false))
    else if t.collecting then Outcome(n, [])
    else Outcome(n.(collecting := true, retryArmed := false), [])
  }

  function Asked(d: Rdo): nat {
    if d.hopByHop then 0 else d.asks
  }

  predicate Refuses(c: Config, t: Target, d: Rdo) {
    t.stopped || c.own in d.heard
  }

  predicate Ignores(t: Target, d: Rdo) {
    t.vector != [] && ((t.isTarget && !t.others) || !d.fromPreferred)
  }

  /** What the DIO sets, its vector with this router's address included. */
  function Adopted(c: Config, t: Target, d: Rdo): Target {
    var route := d.heard + [c.own];
    t.(numRoutes := Asked(d), reply := d.reply, isTarget := t.isTarget || d.names, others := d.others, vector := route,
       alternates := Erased(t.alternates, route))
  }

  function Recorded(c: Config, t: Target, d: Rdo): Target {
    if t.isTarget && Asked(d) > 0 then RecordAlternate(c, t, d, Asked(d)) else t
  }

  /** A DIO that is not ignored. */
  function TakeRdo(c: Config, t: Target, d: Rdo): Outcome {
    var adopted := Adopted(c, t, d);
    if |adopted.vector| > d.capacity then Outcome(Gone(adopted), [])
    else if StartsCycle(adopted) then Begun(c, adopted)
    else Outcome(adopted, [])
  }

  function HandleRdo(c: Config, t: Target, d: Rdo): Outcome {
    if Refuses(c, t, d) then Outcome(t, [])
    else
      var recorded := Recorded(c, t, d);
      if Ignores(recorded, d) then Outcome(recorded, []) else TakeRdo(c, recorded, d)
  }

  /** Leaving the DAG cancels both timers. */
  function Gone(t: Target): Target {
    t.(member := false, collecting := false, retryArmed := false)
  }

  function RetryDue(c: Config, t: Target): Outcome {
    var fired := t.(retryArmed := false);
    if !t.ackPending then Outcome(fired, [])
    else if t.retriesLeft == 0 then Outcome(fired.(ackPending := false), [])
    else SendMain(c, fired.(retriesLeft := t.retriesLeft - 1))
  }

  /** At most `room` of the routes, those equal to `main` passed over. */
  function Others(routes: seq<Path>, main: Path, room: nat): seq<Path> {
    if routes == [] || room == 0 then []
    else if routes[0] == main then Others(routes[1..], main, room)
    else [routes[0]] + Others(routes[1..], main, room - 1)
  }

  function AlternateDros(t: Target, routes: seq<Path>): seq<Dro> {
    if routes == [] then []
    else [Dro(false, routes[0], t.sequenceNumber, !t.others, false)] + AlternateDros(t, routes[1..])
  }

  function WindowDue(c: Config, t: Target): Outcome {
    var closed := t.(collecting := false);
    if !t.isTarget || !t.reply then Outcome(closed.(alternates := []), [])
    else if t.vector == [] then Outcome(closed, [])
    else
      var main := SendMain(c, closed);
      Outcome(main.target.(alternates := []), main.sent + AlternateDros(t, Others(t.alternates, t.vector, t.numRoutes)))
  }

  function AckHeard(t: Target, sequenceNumber: nat): Target {
    if t.isTarget && t.ackPending && sequenceNumber == t.sequenceNumber
    then t.(retryArmed := false, ackPending := false)
    else t
  }

  /** The alternates' P2P-DROs depend on the Seq and the other targets alone. */
  lemma {:induction false} SameDros(t: Target, u: Target, routes: seq<Path>)
    requires t.sequenceNumber == u.sequenceNumber && t.others == u.others
    ensures AlternateDros(t, routes) == AlternateDros(u, routes)
  {
    if routes != [] {
      SameDros(t, u, routes[1..]);
    }
  }

  /** What is still to be sent from alternate `k` on. */
  function Owed(t: Target, k: nat, room: nat): seq<Dro>
    requires k <= |t.alternates|
  {
    AlternateDros(t, Others(t.alternates[k..], t.vector, room))
  }

  lemma OwedNext(t: Target, k: nat, room: nat)
    requires k < |t.alternates| && room > 0
    ensures Owed(t, k, room)
         == if t.alternates[k] == t.vector then Owed(t, k + 1, room)
            else [Dro(false, t.alternates[k], t.sequenceNumber, !t.others, false)] + Owed(t, k + 1, room - 1)
  {
    assert t.alternates[k..][1..] == t.alternates[k + 1..];
    var rest := Others(t.alternates[k + 1..], t.vector, room - 1);
    assert ([t.alternates[k]] + rest)[1..] == rest;
  }

  lemma OwedNothing(t: Target, k: nat, room: nat)
    requires k <= |t.alternates| && (k == |t.alternates| || room == 0)
    ensures Owed(t, k, room) == []
  {
  }

  // ---------------------------------------------------------------- the Target object

  class P2pTarget {
    const config: Config
    var t: Target
    var air: seq<Dro>

    constructor (config: Config)
      ensures this.config == config && t == FRESH && air == []
    {
      this.config := config;
      t, air := FRESH, [];
    }

    method SendP2pDroRoute(main: bool, route: Path, stop: bool, trackAck: bool)
      modifies this
      ensures t == old(t).(retryArmed := old(t).retryArmed || trackAck)
      ensures air == old(air) + [Dro(main, route, t.sequenceNumber, stop, trackAck)]
    {
      air := air + [Dro(main, route, t.sequenceNumber, stop, trackAck)];
      if trackAck {
        t := t.(retryArmed := true);
      }
    }

    method SendP2pDro()
      modifies this
      ensures t == SendMain(config, old(t)).target && air == old(air) + SendMain(config, old(t)).sent
    {
      SendP2pDroRoute(true, t.vector, !t.others, config.ackRequested);
    }

    /** The first of the longest alternates. */
    method FindWorst() returns (worst: nat)
      requires t.alternates != []
      ensures worst == Worst(t.alternates)
    {
      worst := 0;
      for k := 1 to |t.alternates|
        invariant worst == Worst(t.alternates[..k])
      {
        assert t.alternates[..k + 1][..k] == t.alternates[..k];
        if |t.alternates[worst]| < |t.alternates[k]| {
          worst := k;
        }
      }
      assert t.alternates[..|t.alternates|] == t.alternates;
    }

    method RecordP2pAlternateRoute(d: Rdo, asked: nat)
      modifies this
      ensures t == RecordAlternate(config, old(t), d, asked) && air == old(air)
    {
      var route := d.heard + [config.own];
      if |route| > d.capacity || route == t.vector {
        return;
      }
      if route in t.alternates {
        return;
      }
      if |t.alternates| >= asked {
        if t.alternates == [] {
          return;
        }
        var worst := FindWorst();
        if |t.alternates[worst]| <= |route| {
          return;
        }
        t := t.(alternates := t.alternates[worst := route]);
        return;
      }
      t := t.(alternates := t.alternates + [route]);
    }

    method EraseAlternate(route: Path)
      modifies this
      ensures t == old(t).(alternates := Erased(old(t).alternates, route)) && air == old(air)
    {
      var left := [];
      assert Erased(t.alternates[..0], route) == [];
      hide Erased;
      for k := 0 to |t.alternates|
        invariant t == old(t) && air == old(air)
        invariant left == Erased(t.alternates[..k], route)
      {
        ErasedOneMore(t.alternates[..k], t.alternates[k], route);
        assert t.alternates[..k + 1] == t.alternates[..k] + [t.alternates[k]];
        if t.alternates[k] != route {
          left := left + [t.alternates[k]];
        }
      }
      assert t.alternates[..|t.alternates|] == t.alternates;
      t := t.(alternates := left);
    }

    method StartReplyCycle()
      modifies this
      ensures t == Begun(config, old(t)).target && air == old(air) + Begun(config, old(t)).sent
    {
      t := t.(lastReplied := t.vector, sequenceNumber := (t.sequenceNumber + 1) % SEQUENCE_SIZE,
              ackPending := config.ackRequested, retriesLeft := config.maxRetransmissions);
      if t.numRoutes == 0 {
        t := t.(collecting := false);
        SendP2pDro();
      } else if !t.collecting {
        t := t.(retryArmed := false, collecting := true);
      }
    }

    /** The part of a DIO that is not ignored. */
    method Adopt(d: Rdo)
      modifies this
      ensures t == Adopted(config, old(t), d) && air == old(air)
    {
      t := t.(numRoutes := if d.hopByHop then 0 else d.asks, reply := d.reply, isTarget := t.isTarget || d.names,
              others := d.others);
      t := t.(vector := d.heard + [config.own]);
      EraseAlternate(t.vector);
    }

    method TakeP2pRdo(d: Rdo)
      modifies this
      ensures t == TakeRdo(config, old(t), d).target && air == old(air) + TakeRdo(config, old(t), d).sent
    {
      Adopt(d);
      if |t.vector| > d.capacity {
        t := t.(member := false, collecting := false, retryArmed := false);
      } else if t.isTarget && t.reply && t.vector != t.lastReplied {
        StartReplyCycle();
      }
    }

    method HandleP2pRdo(d: Rdo)
      modifies this
      ensures t == HandleRdo(config, old(t), d).target && air == old(air) + HandleRdo(config, old(t), d).sent
    {
      if t.stopped || config.own in d.heard {
        return;
      }
      var asked := if d.hopByHop then 0 else d.asks;
      if t.isTarget && asked > 0 {
        RecordP2pAlternateRoute(d, asked);
      }
      assert t == Recorded(config, old(t), d);
      if t.isTarget && t.vector != [] && !t.others {
        return;
      }
      if t.vector != [] && !d.fromPreferred {
        return;
      }
      TakeP2pRdo(d);
    }

    method P2pDroRetry()
      modifies this
      ensures t == RetryDue(config, old(t)).target && air == old(air) + RetryDue(config, old(t)).sent
    {
      t := t.(retryArmed := false);
      if !t.ackPending {
        return;
      }
      if t.retriesLeft == 0 {
        t := t.(ackPending := false);
        return;
      }
      t := t.(retriesLeft := t.retriesLeft - 1);
      SendP2pDro();
    }

    /** Up to N alternates after the main route, whichever of them differ from it. */
    method SendAlternates(stop: bool)
      requires stop == !t.others
      modifies this
      ensures t == old(t) && air == old(air) + Owed(t, 0, t.numRoutes)
    {
      hide Owed;
      var sent := 1;
      var k := 0;
      while k < |t.alternates| && sent <= t.numRoutes
        invariant k <= |t.alternates| && 1 <= sent <= t.numRoutes + 1 && t == old(t)
        invariant air + Owed(t, k, t.numRoutes + 1 - sent) == old(air) + Owed(t, 0, t.numRoutes)
        decreases |t.alternates| - k
      {
        OwedNext(t, k, t.numRoutes + 1 - sent);
        var route := t.alternates[k];
        if route != t.vector {
          Associates(air, [Dro(false, route, t.sequenceNumber, stop, false)], Owed(t, k + 1, t.numRoutes - sent));
          SendP2pDroRoute(false, route, stop, false);
          sent := sent + 1;
        }
        k := k + 1;
      }
      OwedNothing(t, k, t.numRoutes + 1 - sent);
    }

    method P2pDroCollectExpire()
      modifies this
      ensures t == WindowDue(config, old(t)).target && air == old(air) + WindowDue(config, old(t)).sent
    {
      hide AlternateDros, Others;
      t := t.(collecting := false);
      if !t.isTarget || !t.reply {
        t := t.(alternates := []);
        return;
      }
      if t.vector == [] {
        return;
      }
      var stop := !t.others;
      SendP2pDroRoute(true, t.vector, stop, config.ackRequested);
      SendAlternates(stop);
      assert t.alternates[0..] == t.alternates;
      SameDros(t, old(t), Others(t.alternates, t.vector, t.numRoutes));
      t := t.(alternates := []);
    }

    method HandleP2pDroAck(sequenceNumber: nat)
      modifies this
      ensures t == AckHeard(old(t), sequenceNumber) && air == old(air)
    {
      if !t.isTarget || !t.ackPending {
        return;
      }
      if sequenceNumber != t.sequenceNumber {
        return;
      }
      t := t.(retryArmed := false, ackPending := false);
    }
  }

  // ---------------------------------------------------------------- whole runs

  datatype Event = Dio(d: Rdo) | Retry | Window | Ack(sequenceNumber: nat) | StopHeard | Leave

  /** Any interleaving: a timer can fire only while it is armed. */
  predicate Enabled(t: Target, e: Event) {
    t.member && (e.Retry? ==> t.retryArmed) && (e.Window? ==> t.collecting)
  }

  function React(c: Config, t: Target, e: Event): Outcome {
    match e
    case Dio(d) => HandleRdo(c, t, d)
    case Retry => RetryDue(c, t)
    case Window => WindowDue(c, t)
    case Ack(n) => Outcome(AckHeard(t, n), [])
    case StopHeard => Outcome(t.(stopped := true), [])
    case Leave => Outcome(Gone(t), [])
  }

  predicate CycleBegins(c: Config, t: Target, e: Event) {
    && e.Dio? && !Refuses(c, t, e.d)
    && var recorded := Recorded(c, t, e.d);
       !Ignores(recorded, e.d) && |e.d.heard| + 1 <= e.d.capacity && StartsCycle(Adopted(c, recorded, e.d))
  }

  function Mains(sent: seq<Dro>): nat {
    if sent == [] then 0 else (if sent[0].main then 1 else 0) + Mains(sent[1..])
  }

  /** The Target with the cycles begun so far and the main P2P-DROs sent in the current one. */
  datatype World = World(t: Target, cycles: nat, sends: nat)

  function Step(c: Config, w: World, e: Event): World {
    var o := React(c, w.t, e);
    if CycleBegins(c, w.t, e) then World(o.target, w.cycles + 1, Mains(o.sent))
    else World(o.target, w.cycles, w.sends + Mains(o.sent))
  }

  predicate Possible(c: Config, w: World, run: seq<Event>)
    decreases |run|
  {
    run == [] || (Enabled(w.t, run[0]) && Possible(c, Step(c, w, run[0]), run[1..]))
  }

  function After(c: Config, w: World, run: seq<Event>): World
    decreases |run|
  {
    if run == [] then w else After(c, Step(c, w, run[0]), run[1..])
  }

  /** While a window is open nothing of the cycle has been sent and no retry is armed; otherwise sends and retries left
      share one budget. */
  ghost predicate Disciplined(c: Config, w: World) {
    var t := w.t;
    && t.sequenceNumber < SEQUENCE_SIZE && t.sequenceNumber == w.cycles % SEQUENCE_SIZE
    && t.retriesLeft <= c.maxRetransmissions && RepeatFree(t.alternates)
    && w.sends + t.retriesLeft <= 1 + c.maxRetransmissions
    && (t.collecting ==> w.sends == 0 && !t.retryArmed)
  }

  lemma {:induction false} ErasedIs(routes: seq<Path>, route: Path)
    ensures forall r :: r in Erased(routes, route) <==> r in routes && r != route
    ensures RepeatFree(routes) ==> RepeatFree(Erased(routes, route))
  {
    if routes != [] {
      ErasedIs(routes[1..], route);
      if RepeatFree(routes) {
        assert RepeatFree(routes[1..]) && routes[0] !in routes[1..];
      }
    }
  }

  lemma AddingKeepsDistinct(routes: seq<Path>, route: Path, at: nat)
    requires RepeatFree(routes) && route !in routes
    ensures RepeatFree(routes + [route])
    ensures at < |routes| ==> RepeatFree(routes[at := route])
  {
    if at < |routes| {
      assert forall i :: 0 <= i < |routes| ==> routes[i] in routes;
    }
  }

  lemma RecordingKeepsDistinct(c: Config, t: Target, d: Rdo)
    requires RepeatFree(t.alternates)
    ensures RepeatFree(Recorded(c, t, d).alternates)
    ensures Recorded(c, t, d) == t.(alternates := Recorded(c, t, d).alternates)
  {
    hide RepeatFree, Worst;
    var route := d.heard + [c.own];
    if route !in t.alternates {
      AddingKeepsDistinct(t.alternates, route, if t.alternates == [] then 0 else Worst(t.alternates));
    }
  }

  lemma MainsOfOne(d: Dro)
    ensures Mains([d]) == if d.main then 1 else 0
  {
    assert [d][1..] == [];
  }

  lemma NothingSent()
    ensures Mains([]) == 0
  {
  }

  lemma {:induction false} AlternatesAreNotMain(t: Target, routes: seq<Path>)
    ensures Mains(AlternateDros(t, routes)) == 0
  {
    if routes != [] {
      AlternatesAreNotMain(t, routes[1..]);
    }
  }

  lemma WindowSendsOneMain(c: Config, t: Target)
    ensures Mains(WindowDue(c, t).sent) <= 1
  {
    var rest := AlternateDros(t, Others(t.alternates, t.vector, t.numRoutes));
    AlternatesAreNotMain(t, Others(t.alternates, t.vector, t.numRoutes));
    assert ([MainDro(c, t.(collecting := false))] + rest)[1..] == rest;
  }

  /** What taking a DIO does to what discipline speaks of. */
  lemma TakingIsDisciplined(c: Config, t: Target, d: Rdo)
    requires RepeatFree(t.alternates) && t.sequenceNumber < SEQUENCE_SIZE
    ensures var o := TakeRdo(c, t, d);
            var begins := |d.heard| + 1 <= d.capacity && StartsCycle(Adopted(c, t, d));
            && RepeatFree(o.target.alternates)
            && (if begins then
                  o.target.sequenceNumber == (t.sequenceNumber + 1) % SEQUENCE_SIZE
                  && o.target.retriesLeft == c.maxRetransmissions
                  && Mains(o.sent) <= 1
                  && (o.target.collecting ==> o.sent == [] && (t.collecting ==> o.target.retryArmed == t.retryArmed)
                                              && (!t.collecting ==> !o.target.retryArmed))
                else
                  o.target.sequenceNumber == t.sequenceNumber && o.target.retriesLeft == t.retriesLeft && o.sent == []
                  && o.target.ackPending == t.ackPending
                  && (o.target.collecting ==> t.collecting && o.target.retryArmed == t.retryArmed))
  {
    hide RepeatFree, Erased, Mains;
    NothingSent();
    ErasedIs(t.alternates, d.heard + [c.own]);
    MainsOfOne(MainDro(c, NewCycle(c, Adopted(c, t, d)).(collecting := false)));
  }

  lemma DioIsDisciplined(c: Config, w: World, d: Rdo)
    requires Disciplined(c, w) && w.t.member
    ensures Disciplined(c, Step(c, w, Dio(d)))
  {
    hide TakeRdo, Recorded, Adopted, StartsCycle;
    RecordingKeepsDistinct(c, w.t, d);
    TakingIsDisciplined(c, Recorded(c, w.t, d), d);
  }

  lemma StepIsDisciplined(c: Config, w: World, e: Event)
    requires Disciplined(c, w) && Enabled(w.t, e)
    ensures Disciplined(c, Step(c, w, e))
  {
    hide Mains, Others, AlternateDros, HandleRdo, TakeRdo, Recorded;
    NothingSent();
    match e
    case Dio(d) => DioIsDisciplined(c, w, d);
    case Retry =>
      if w.t.retriesLeft > 0 {
        MainsOfOne(MainDro(c, w.t.(retryArmed := false, retriesLeft := w.t.retriesLeft - 1)));
      }
    case Window => WindowSendsOneMain(c, w.t);
    case Ack(n) =>
    case StopHeard =>
    case Leave =>
  }

  lemma {:induction false} RunIsDisciplined(c: Config, w: World, run: seq<Event>)
    requires Disciplined(c, w) && Possible(c, w, run)
    ensures Disciplined(c, After(c, w, run))
    decreases |run|
  {
    if run != [] {
      StepIsDisciplined(c, w, run[0]);
      RunIsDisciplined(c, Step(c, w, run[0]), run[1..]);
    }
  }

  /** Over any interleaving of DIOs, timers, windows and acknowledgements: Seq counts cycles modulo 4, and no cycle
      sends its main P2P-DRO more than once plus the retransmissions allowed. */
  lemma CyclesAreBounded(c: Config, run: seq<Event>)
    requires Possible(c, World(FRESH, 0, 0), run)
    ensures var w := After(c, World(FRESH, 0, 0), run);
            w.t.sequenceNumber == w.cycles % SEQUENCE_SIZE && w.sends <= 1 + c.maxRetransmissions
  {
    RunIsDisciplined(c, World(FRESH, 0, 0), run);
  }

  /** In a cycle already acknowledged, one event sends nothing unless it is the window's. */
  lemma AckedStep(c: Config, w: World, e: Event)
    requires Disciplined(c, w) && !w.t.ackPending && Enabled(w.t, e) && Step(c, w, e).cycles == w.cycles
    ensures var w' := Step(c, w, e);
            && !w'.t.ackPending
            && (if w'.t.collecting then w.t.collecting else w'.sends <= if w.t.collecting then 1 else w.sends)
  {
    match e
    case Dio(d) =>
      RecordingKeepsDistinct(c, w.t, d);
      TakingIsDisciplined(c, Recorded(c, w.t, d), d);
    case Window => WindowSendsOneMain(c, w.t);
    case Retry =>
    case Ack(n) =>
    case StopHeard =>
    case Leave =>
  }

  /** In a cycle already acknowledged nothing more is sent, save the one P2P-DRO an open window still owes. */
  lemma {:induction false} AckedCycleIsOver(c: Config, w: World, run: seq<Event>)
    requires Disciplined(c, w) && !w.t.ackPending && Possible(c, w, run)
    requires After(c, w, run).cycles == w.cycles
    ensures After(c, w, run).sends <= if w.t.collecting then 1 else w.sends
    decreases |run|
  {
    if run != [] {
      var w' := Step(c, w, run[0]);
      CyclesOnlyGrow(c, w', run[1..]);
      assert After(c, w, run) == After(c, w', run[1..]) && w'.cycles == w.cycles;
      StepIsDisciplined(c, w, run[0]);
      AckedStep(c, w, run[0]);
      AckedCycleIsOver(c, w', run[1..]);
    }
  }

  lemma {:induction false} CyclesOnlyGrow(c: Config, w: World, run: seq<Event>)
    ensures After(c, w, run).cycles >= w.cycles
    decreases |run|
  {
    if run != [] {
      CyclesOnlyGrow(c, Step(c, w, run[0]), run[1..]);
    }
  }

  /** What the acknowledgement of cycle `k` does to a Target waiting for one, whatever comes after it: that of the
      present cycle, or of one a multiple of four before, for which Seq cannot tell them apart, ends retransmission;
      any other is as if it had not come. */
  lemma AckEndsRetransmission(c: Config, w: World, k: nat, run: seq<Event>)
    requires Disciplined(c, w) && w.t.member && w.t.isTarget && w.t.ackPending && k <= w.cycles
    requires Possible(c, Step(c, w, Ack(k % SEQUENCE_SIZE)), run)
    ensures var w' := After(c, Step(c, w, Ack(k % SEQUENCE_SIZE)), run);
            if (w.cycles - k) % SEQUENCE_SIZE == 0
            then w'.cycles == w.cycles ==> w'.sends <= if w.t.collecting then 1 else w.sends
            else w' == After(c, w, run)
  {
    var acked := Step(c, w, Ack(k % SEQUENCE_SIZE));
    StepIsDisciplined(c, w, Ack(k % SEQUENCE_SIZE));
    if (w.cycles - k) % SEQUENCE_SIZE == 0 {
      assert acked == w.(t := w.t.(retryArmed := false, ackPending := false));
      if After(c, acked, run).cycles == w.cycles {
        AckedCycleIsOver(c, acked, run);
      }
    } else {
      assert acked == w;
    }
  }

  // ---------------------------------------------------------------- batches

  function Routes(sent: seq<Dro>): seq<Path> {
    seq(|sent|, i requires 0 <= i < |sent| => sent[i].route)
  }

  lemma {:induction false} OthersAre(routes: seq<Path>, main: Path, room: nat)
    requires RepeatFree(routes)
    ensures var o := Others(routes, main, room);
            |o| <= room && RepeatFree(o) && forall r :: r in o ==> r in routes && r != main
    decreases |routes|
  {
    if routes != [] && room > 0 {
      assert RepeatFree(routes[1..]) && routes[0] !in routes[1..];
      OthersAre(routes[1..], main, if routes[0] == main then room else room - 1);
    }
  }

  lemma {:induction false} AlternateDrosAre(t: Target, routes: seq<Path>, i: nat)
    requires i < |routes|
    ensures |AlternateDros(t, routes)| == |routes|
    ensures AlternateDros(t, routes)[i] == Dro(false, routes[i], t.sequenceNumber, !t.others, false)
  {
    if i > 0 {
      AlternateDrosAre(t, routes[1..], i - 1);
    } else if |routes| > 1 {
      AlternateDrosAre(t, routes[1..], 0);
    }
  }

  /** The batch a window sends: the main route first and at most N others, all different, under one Seq, of which only
      the first asks for an acknowledgement. */
  lemma BatchIsDistinct(c: Config, w: World)
    requires Disciplined(c, w) && w.t.isTarget && w.t.reply && w.t.vector != []
    ensures var sent := WindowDue(c, w.t).sent;
            && 1 <= |sent| <= w.t.numRoutes + 1
            && sent[0] == MainDro(c, w.t)
            && RepeatFree(Routes(sent))
            && forall i :: 0 < i < |sent| ==>
                 sent[i].sequenceNumber == w.t.sequenceNumber && !sent[i].ackRequested && !sent[i].main
  {
    var o := Others(w.t.alternates, w.t.vector, w.t.numRoutes);
    OthersAre(w.t.alternates, w.t.vector, w.t.numRoutes);
    var sent := WindowDue(c, w.t).sent;
    if o != [] { AlternateDrosAre(w.t, o, 0); }
    forall i | 0 < i < |sent| ensures sent[i] == Dro(false, o[i - 1], w.t.sequenceNumber, !w.t.others, false) {
      AlternateDrosAre(w.t, o, i - 1);
    }
    forall i, j | 0 <= i < j < |sent| ensures Routes(sent)[i] != Routes(sent)[j] {
      assert o[j - 1] in o;
    }
  }

  // ---------------------------------------------------------------- the flood

  lemma {:induction false} ErasedArePart(routes: seq<Path>, route: Path)
    ensures forall r :: r in Erased(routes, route) ==> r in routes
  {
    if routes != [] {
      ErasedArePart(routes[1..], route);
    }
  }

  lemma RecordedAre(c: Config, t: Target, d: Rdo)
    ensures forall r :: r in Recorded(c, t, d).alternates ==> r in t.alternates || r == d.heard + [c.own]
    ensures Recorded(c, t, d) == t.(alternates := Recorded(c, t, d).alternates)
  {
    hide Worst;
    assert t.(alternates := t.alternates) == t;
  }

  /** The vector this router advertises. */
  function VectorOf(t: Target): Option<Path> {
    if t.member && t.vector != [] then Some(t.vector) else None
  }

  /** A P2P mode DIO does to a router's vector what a flood may; the alternates kept are copies heard, extended. */
  lemma RdoTakes(c: Config, t: Target, d: Rdo)
    requires t.member
    ensures FloodPaths.Took(c.own, VectorOf(t), d.heard, VectorOf(HandleRdo(c, t, d).target))
    ensures forall r :: r in HandleRdo(c, t, d).target.alternates ==>
              r in t.alternates || (c.own !in d.heard && r == d.heard + [c.own])
  {
    RecordedAre(c, t, d);
    ErasedArePart(Recorded(c, t, d).alternates, d.heard + [c.own]);
  }
}
