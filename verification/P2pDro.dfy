/** The way back of a P2P-RPL route discovery: a P2P-DRO relayed from the Target to the Origin along the vector it
    carries, and the hop-by-hop route it leaves (sections 9.6 and 9.7 of RFC 6997). */
module P2pDro {
  import opened RplTypes
  import opened Paths
  import FloodPaths

  type Path = FloodPaths.Path

  /** NH counts from 1: Address[NH] is `vector[nh - 1]`. */
  datatype Dro = Dro(hopByHop: bool, stop: bool, ackRequested: bool, nh: nat, vector: Path, target: Address)

  /** `thisDag` tells whether the entry was stored for the temporary DAG at hand. */
  datatype HopRoute = HopRoute(thisDag: bool, nextHop: Address, expire: Time)

  datatype Router = Router(
    own: Address, member: bool, isOrigin: bool, asked: Address, stopped: bool, hopByHop: map<Address, HopRoute>,
    sourceRoutes: map<Address, Path>, routeStored: bool)

  datatype Handling = Handling(router: Router, acted: bool, relayed: Option<Dro>, acked: bool)

  // ---------------------------------------------------------------- one router

  predicate Conflicts(r: Router, destination: Address, nextHop: Address, now: Time) {
    && destination in r.hopByHop && r.hopByHop[destination].expire > now && r.hopByHop[destination].thisDag
    && r.hopByHop[destination].nextHop != nextHop
  }

  function WithRoute(r: Router, destination: Address, nextHop: Address, expire: Time): Router {
    r.(hopByHop := r.hopByHop[destination := HopRoute(true, nextHop, expire)])
  }

  function Stop(r: Router, stop: bool): Router {
    r.(stopped := r.stopped || stop)
  }

  function Count(p: Path, x: Address): nat {
    if p == [] then 0 else (if p[0] == x then 1 else 0) + Count(p[1..], x)
  }

  predicate OwnTurn(r: Router, m: Dro) {
    0 < m.nh <= |m.vector| && m.vector[m.nh - 1] == r.own
  }

  /** The next hop this router records towards the Target. */
  function NextHop(r: Router, m: Dro): Address
    requires r.isOrigin || OwnTurn(r, m)
  {
    if r.isOrigin then if m.vector == [] then m.target else m.vector[0]
    else if m.nh == |m.vector| then m.target else m.vector[m.nh]
  }

  /** Shorter routes of one discovery are kept over longer ones; nothing is kept over another discovery's. */
  function WithSourceRoute(r: Router, m: Dro): Router {
    var hops := m.vector + [m.target];
    if r.routeStored && m.target in r.sourceRoutes && |r.sourceRoutes[m.target]| < |hops| then r
    else r.(sourceRoutes := r.sourceRoutes[m.target := hops], routeStored := true)
  }

  function AtOrigin(r: Router, m: Dro, now: Time, lifetime: nat): Handling
    requires r.isOrigin
  {
    if m.target != r.asked then Handling(r, false, None, false)
    else if m.hopByHop && Conflicts(r, m.target, NextHop(r, m), now) then Handling(Stop(r, m.stop), false, None, false)
    else
      Handling(Stop(if m.hopByHop then WithRoute(r, m.target, NextHop(r, m), now + lifetime)
                    else WithSourceRoute(r, m), m.stop),
               true, None, m.ackRequested)
  }

  /** `capacity` is how many entries the option can carry at the Compr the relayed vector takes. */
  function AtRelay(r: Router, m: Dro, now: Time, lifetime: nat, capacity: nat): Handling {
    if !OwnTurn(r, m) || Count(m.vector, r.own) > 1 then Handling(Stop(r, m.stop), false, None, false)
    else if m.hopByHop && Conflicts(r, m.target, NextHop(r, m), now) then Handling(Stop(r, m.stop), false, None, false)
    else
      var stored := if m.hopByHop then WithRoute(r, m.target, NextHop(r, m), now + lifetime) else r;
      if |m.vector| > capacity then Handling(Stop(stored, m.stop), false, None, false)
      else Handling(Stop(stored, m.stop), true, Some(m.(nh := m.nh - 1)), false)
  }

  function Handle(r: Router, m: Dro, now: Time, lifetime: nat, capacity: nat): Handling {
    if !r.member then Handling(r, false, None, false)
    else if r.isOrigin then AtOrigin(r, m, now, lifetime)
    else AtRelay(r, m, now, lifetime, capacity)
  }

  class P2pRouter {
    const own: Address
    const isOrigin: bool
    const asked: Address
    var member: bool
    var stopped: bool
    var hopByHop: map<Address, HopRoute>
    var sourceRoutes: map<Address, Path>
    var routeStored: bool

    function State(): Router
      reads this
    {
      Router(own, member, isOrigin, asked, stopped, hopByHop, sourceRoutes, routeStored)
    }

    constructor (own: Address, isOrigin: bool, asked: Address)
      ensures State() == Router(own, true, isOrigin, asked, false, map[], map[], false)
    {
      this.own, this.isOrigin, this.asked := own, isOrigin, asked;
      member, stopped, hopByHop, sourceRoutes, routeStored := true, false, map[], map[], false;
    }

    method RecordStop(stop: bool)
      modifies this
      ensures State() == Stop(old(State()), stop)
    {
      if stop && !stopped {
        stopped := true;
      }
    }

    method StoreHopByHopRoute(destination: Address, nextHop: Address, now: Time, lifetime: nat) returns (ok: bool)
      modifies this
      ensures ok == !Conflicts(old(State()), destination, nextHop, now)
      ensures State() == if ok then WithRoute(old(State()), destination, nextHop, now + lifetime) else old(State())
    {
      if destination in hopByHop {
        var held := hopByHop[destination];
        var sameRoute := held.expire > now && held.thisDag;
        if sameRoute && held.nextHop != nextHop {
          return false;
        }
      }
      hopByHop := hopByHop[destination := HopRoute(true, nextHop, now + lifetime)];
      return true;
    }

    method CountOwn(vector: Path) returns (ownCount: nat)
      ensures ownCount == Count(vector, own)
    {
      ownCount := 0;
      for k := 0 to |vector|
        invariant ownCount + Count(vector[k..], own) == Count(vector, own)
      {
        assert vector[k..][1..] == vector[k + 1..];
        if vector[k] == own {
          ownCount := ownCount + 1;
        }
      }
    }

    method HandleAtOrigin(m: Dro, now: Time, lifetime: nat) returns (acted: bool, acked: bool)
      requires isOrigin
      modifies this
      ensures var h := AtOrigin(old(State()), m, now, lifetime);
              State() == h.router && acted == h.acted && acked == h.acked
    {
      acted, acked := false, false;
      if m.target != asked {
        return;
      }
      if m.hopByHop {
        var nextHop := if m.vector == [] then m.target else m.vector[0];
        var ok := StoreHopByHopRoute(m.target, nextHop, now, lifetime);
        if !ok {
          RecordStop(m.stop);
          return;
        }
      } else {
        var hops := m.vector + [m.target];
        if !(routeStored && m.target in sourceRoutes && |sourceRoutes[m.target]| < |hops|) {
          sourceRoutes := sourceRoutes[m.target := hops];
        }
        routeStored := true;
      }
      acted, acked := true, m.ackRequested;
      RecordStop(m.stop);
    }

    method HandleP2pDro(m: Dro, now: Time, lifetime: nat, capacity: nat)
      returns (acted: bool, relayed: Option<Dro>, acked: bool)
      modifies this
      ensures Handle(old(State()), m, now, lifetime, capacity) == Handling(State(), acted, relayed, acked)
    {
      acted, relayed, acked := false, None, false;
      if !member {
        return;
      }
      if isOrigin {
        acted, acked := HandleAtOrigin(m, now, lifetime);
        return;
      }
      if m.nh == 0 || m.nh > |m.vector| || m.vector[m.nh - 1] != own {
        RecordStop(m.stop);
        return;
      }
      var ownCount := CountOwn(m.vector);
      if ownCount > 1 {
        RecordStop(m.stop);
        return;
      }
      if m.hopByHop {
        var nextHop := if m.nh == |m.vector| then m.target else m.vector[m.nh];
        var ok := StoreHopByHopRoute(m.target, nextHop, now, lifetime);
        if !ok {
          RecordStop(m.stop);
          return;
        }
      }
      if |m.vector| > capacity {
        RecordStop(m.stop);
        return;
      }
      acted, relayed := true, Some(m.(nh := m.nh - 1));
      RecordStop(m.stop);
    }
  }

  // ---------------------------------------------------------------- one reply in a network

  /** Every copy sent may arrive anywhere, any number of times. The log holds who acted on which NH; the Origin's
      acceptance is entered with 0. */
  datatype Net = Net(routers: map<Address, Router>, sent: set<Dro>, log: seq<(Address, nat)>)

  datatype Event = Delivered(x: Address, m: Dro, at: Time) | Left(x: Address)

  datatype Reply = Reply(first: Dro, origin: Address, begin: Time, lifetime: nat, capacity: nat)

  /** Origin, Address[1], ..., Address[n], Target. */
  function Chain(p: Reply): Path {
    [p.origin] + p.first.vector + [p.first.target]
  }

  predicate Enabled(p: Reply, n: Net, e: Event) {
    match e
    case Delivered(x, m, at) => x in n.routers && m in n.sent && p.begin <= at
    case Left(x) => x in n.routers
  }

  function Step(p: Reply, n: Net, e: Event): Net
    requires Enabled(p, n, e)
  {
    match e
    case Left(x) => n.(routers := n.routers[x := n.routers[x].(member := false)])
    case Delivered(x, m, at) =>
      var h := Handle(n.routers[x], m, at, p.lifetime, p.capacity);
      Net(n.routers[x := h.router], if h.relayed.Some? then n.sent + {h.relayed.value} else n.sent,
          if h.acted then n.log + [(x, if n.routers[x].isOrigin then 0 else m.nh)] else n.log)
  }

  predicate Possible(p: Reply, n: Net, run: seq<Event>)
    decreases |run|
  {
    run == [] || (Enabled(p, n, run[0]) && Possible(p, Step(p, n, run[0]), run[1..]))
  }

  function After(p: Reply, n: Net, run: seq<Event>): Net
    requires Possible(p, n, run)
    decreases |run|
  {
    if run == [] then n else After(p, Step(p, n, run[0]), run[1..])
  }

  predicate Proper(p: Reply) {
    p.first.nh == |p.first.vector| && RepeatFree(Chain(p))
  }

  predicate Named(p: Reply, n: Net) {
    forall x :: x in n.routers ==> n.routers[x].own == x && (n.routers[x].isOrigin <==> x == p.origin)
  }

  /** A copy with NH = k exists only once Address[k + 1] has acted. */
  predicate SoundCopy(p: Reply, m: Dro, log: seq<(Address, nat)>) {
    && m == p.first.(nh := m.nh) && m.nh <= |p.first.vector|
    && (m.nh < |p.first.vector| ==> (p.first.vector[m.nh], m.nh + 1) in log)
  }

  /** An entry is of the router whose turn it was, after that of the next one on. */
  predicate SoundEntry(p: Reply, log: seq<(Address, nat)>, i: nat)
    requires i < |log|
  {
    && log[i].1 <= |p.first.vector| && log[i].0 == Chain(p)[log[i].1]
    && (0 < log[i].1 < |p.first.vector| ==> (p.first.vector[log[i].1], log[i].1 + 1) in log[..i])
  }

  /** Whoever has acted holds the next address of the chain as its next hop to the Target. */
  predicate Holds(p: Reply, routers: map<Address, Router>, k: nat)
    requires k <= |p.first.vector|
  {
    && Chain(p)[k] in routers && p.first.target in routers[Chain(p)[k]].hopByHop
    && var held := routers[Chain(p)[k]].hopByHop[p.first.target];
       held.thisDag && held.nextHop == Chain(p)[k + 1] && held.expire >= p.begin + p.lifetime
  }

  ghost predicate Sound(p: Reply, n: Net) {
    && Named(p, n)
    && (forall m :: m in n.sent ==> SoundCopy(p, m, n.log))
    && (forall i :: 0 <= i < |n.log| ==> SoundEntry(p, n.log, i))
    && (p.first.hopByHop ==>
          forall k :: 0 <= k <= |p.first.vector| && (Chain(p)[k], k) in n.log ==> Holds(p, n.routers, k))
  }

  lemma PositionIs(p: Reply, m: Dro, x: Address, k: nat)
    requires Proper(p) && m == p.first.(nh := m.nh) && 0 < m.nh <= |p.first.vector| && k <= |p.first.vector|
    requires p.first.vector[m.nh - 1] == x
    ensures Chain(p)[m.nh] == x
    ensures Chain(p)[k] == x ==> k == m.nh
  {
    assert Chain(p)[m.nh] == p.first.vector[m.nh - 1];
  }

  /** What acting leaves: the log entry, and with H=1 the route, both of the router's own place in the chain. */
  lemma ActingIsInPlace(p: Reply, n: Net, x: Address, m: Dro, at: Time)
    requires Proper(p) && Sound(p, n) && x in n.routers && m in n.sent && p.begin <= at
    requires Handle(n.routers[x], m, at, p.lifetime, p.capacity).acted
    ensures var k := if n.routers[x].isOrigin then 0 else m.nh;
            && k <= |p.first.vector| && Chain(p)[k] == x && (k > 0 ==> m.nh == k)
            && (p.first.hopByHop ==>
                  Holds(p, n.routers[x := Handle(n.routers[x], m, at, p.lifetime, p.capacity).router], k))
  {
    assert SoundCopy(p, m, n.log);
    if !n.routers[x].isOrigin {
      PositionIs(p, m, x, m.nh);
    }
  }

  /** Handling a copy never spoils what an earlier one left. */
  lemma HoldingLasts(p: Reply, n: Net, x: Address, m: Dro, at: Time, k: nat)
    requires Proper(p) && Sound(p, n) && x in n.routers && m in n.sent && p.begin <= at && p.first.hopByHop
    requires k <= |p.first.vector| && Holds(p, n.routers, k)
    ensures Holds(p, n.routers[x := Handle(n.routers[x], m, at, p.lifetime, p.capacity).router], k)
  {
    assert SoundCopy(p, m, n.log);
    if x == Chain(p)[k] {
      assert x == p.origin <==> k == 0 by { assert Chain(p)[0] == p.origin; }
      if OwnTurn(n.routers[x], m) {
        PositionIs(p, m, x, k);
      }
    }
  }

  lemma LogGrows(p: Reply, log: seq<(Address, nat)>, entry: (Address, nat))
    requires forall i :: 0 <= i < |log| ==> SoundEntry(p, log, i)
    requires SoundEntry(p, log + [entry], |log|)
    ensures forall i :: 0 <= i < |log + [entry]| ==> SoundEntry(p, log + [entry], i)
  {
    forall i | 0 <= i < |log + [entry]| ensures SoundEntry(p, log + [entry], i) {
      if i < |log| {
        assert SoundEntry(p, log, i);
        assert (log + [entry])[..i] == log[..i];
      }
    }
  }

  lemma CopiesStaySound(p: Reply, sent: set<Dro>, log: seq<(Address, nat)>, entry: (Address, nat))
    requires forall m :: m in sent ==> SoundCopy(p, m, log)
    ensures forall m :: m in sent ==> SoundCopy(p, m, log + [entry])
  {
  }

  /** The log and the copies after a router has acted. */
  lemma ActingKeepsOrder(p: Reply, n: Net, x: Address, m: Dro, at: Time)
    requires Proper(p) && Sound(p, n) && x in n.routers && m in n.sent && p.begin <= at
    requires Handle(n.routers[x], m, at, p.lifetime, p.capacity).acted
    ensures var n' := Step(p, n, Delivered(x, m, at));
            && (forall c :: c in n'.sent ==> SoundCopy(p, c, n'.log))
            && (forall i :: 0 <= i < |n'.log| ==> SoundEntry(p, n'.log, i))
  {
    hide Proper, Chain;
    var k := if n.routers[x].isOrigin then 0 else m.nh;
    assert SoundCopy(p, m, n.log);
    ActingIsInPlace(p, n, x, m, at);
    assert SoundEntry(p, n.log + [(x, k)], |n.log|) by {
      assert (n.log + [(x, k)])[..|n.log|] == n.log;
    }
    LogGrows(p, n.log, (x, k));
    CopiesStaySound(p, n.sent, n.log, (x, k));
    if !n.routers[x].isOrigin {
      assert p.first.vector[m.nh - 1] == x && (x, m.nh) in n.log + [(x, k)];
      assert SoundCopy(p, m.(nh := m.nh - 1), n.log + [(x, k)]);
    }
  }

  lemma ActingKeepsSound(p: Reply, n: Net, x: Address, m: Dro, at: Time)
    requires Proper(p) && Sound(p, n) && x in n.routers && m in n.sent && p.begin <= at
    requires Handle(n.routers[x], m, at, p.lifetime, p.capacity).acted
    ensures Sound(p, Step(p, n, Delivered(x, m, at)))
  {
    var n' := Step(p, n, Delivered(x, m, at));
    ActingKeepsOrder(p, n, x, m, at);
    if p.first.hopByHop {
      ActingIsInPlace(p, n, x, m, at);
      forall j | 0 <= j <= |p.first.vector| && (Chain(p)[j], j) in n'.log ensures Holds(p, n'.routers, j) {
        if (Chain(p)[j], j) in n.log {
          HoldingLasts(p, n, x, m, at, j);
        }
      }
    }
  }

  lemma IdleKeepsSound(p: Reply, n: Net, x: Address, m: Dro, at: Time)
    requires Proper(p) && Sound(p, n) && x in n.routers && m in n.sent && p.begin <= at
    requires !Handle(n.routers[x], m, at, p.lifetime, p.capacity).acted
    ensures Sound(p, Step(p, n, Delivered(x, m, at)))
  {
    if p.first.hopByHop {
      forall j | 0 <= j <= |p.first.vector| && (Chain(p)[j], j) in n.log
        ensures Holds(p, Step(p, n, Delivered(x, m, at)).routers, j)
      {
        HoldingLasts(p, n, x, m, at, j);
      }
    }
  }

  lemma {:induction false} RunIsSound(p: Reply, n: Net, run: seq<Event>)
    requires Proper(p) && Sound(p, n) && Possible(p, n, run)
    ensures Sound(p, After(p, n, run))
    decreases |run|
  {
    if run != [] {
      match run[0] {
        case Left(x) =>
        case Delivered(x, m, at) =>
          if Handle(n.routers[x], m, at, p.lifetime, p.capacity).acted {
            ActingKeepsSound(p, n, x, m, at);
          } else {
            IdleKeepsSound(p, n, x, m, at);
          }
      }
      RunIsSound(p, Step(p, n, run[0]), run[1..]);
    }
  }

  function Begin(p: Reply, routers: map<Address, Router>): Net {
    Net(routers, {p.first}, [])
  }

  /** In any run, whatever is lost, repeated or overheard, a reply is relayed only by Address[n], ..., Address[1], each
      with its own NH and only after the one before it in that order, and nothing but NH ever changes in it. */
  lemma RelayedOnlyInOrder(p: Reply, routers: map<Address, Router>, run: seq<Event>, i: nat)
    requires Proper(p) && Named(p, Begin(p, routers)) && Possible(p, Begin(p, routers), run)
    requires i < |After(p, Begin(p, routers), run).log|
    ensures var n := After(p, Begin(p, routers), run);
            && SoundEntry(p, n.log, i)
            && forall m :: m in n.sent ==> m == p.first.(nh := m.nh) && m.nh <= |p.first.vector|
  {
    RunIsSound(p, Begin(p, routers), run);
    assert forall m :: m in After(p, Begin(p, routers), run).sent ==>
                         SoundCopy(p, m, After(p, Begin(p, routers), run).log);
  }

  // ---------------------------------------------------------------- the route left behind

  /** Following stored next hops. */
  function Walk(routers: map<Address, Router>, at: Address, target: Address, now: Time, fuel: nat): Path
    decreases fuel
  {
    if at != target && fuel > 0 && at in routers && target in routers[at].hopByHop
       && routers[at].hopByHop[target].expire > now
    then [at] + Walk(routers, routers[at].hopByHop[target].nextHop, target, now, fuel - 1)
    else [at]
  }

  lemma {:induction false} WalkAlong(p: Reply, routers: map<Address, Router>, now: Time, k: nat, fuel: nat)
    requires Proper(p) && k <= |p.first.vector| + 1 && now < p.begin + p.lifetime && fuel + k >= |p.first.vector| + 1
    requires forall j :: k <= j <= |p.first.vector| ==> Holds(p, routers, j)
    ensures Walk(routers, Chain(p)[k], p.first.target, now, fuel) == Chain(p)[k..]
    decreases |p.first.vector| + 1 - k
  {
    var c := Chain(p);
    assert c[|p.first.vector| + 1] == p.first.target;
    if k <= |p.first.vector| {
      assert Holds(p, routers, k) && c[k] != c[|p.first.vector| + 1];
      WalkAlong(p, routers, now, k + 1, fuel - 1);
    }
  }

  /** With H=1, once the Origin and every listed router have acted, and until the first entry expires, next hops lead
      from the Origin through the vector in order to the Target. */
  lemma NextHopsLeadToTarget(p: Reply, routers: map<Address, Router>, run: seq<Event>, now: Time)
    requires Proper(p) && p.first.hopByHop && Named(p, Begin(p, routers)) && Possible(p, Begin(p, routers), run)
    requires forall k :: 0 <= k <= |p.first.vector| ==> (Chain(p)[k], k) in After(p, Begin(p, routers), run).log
    requires now < p.begin + p.lifetime
    ensures Walk(After(p, Begin(p, routers), run).routers, p.origin, p.first.target, now, |p.first.vector| + 1)
            == Chain(p)
  {
    RunIsSound(p, Begin(p, routers), run);
    var n := After(p, Begin(p, routers), run);
    assert forall j :: 0 <= j <= |p.first.vector| ==> (Chain(p)[j], j) in n.log;
    WalkAlong(p, n.routers, now, 0, |p.first.vector| + 1);
    assert Chain(p)[0] == p.origin && Chain(p)[0..] == Chain(p);
  }

  lemma {:induction false} CountsOnce(v: Path, k: nat)
    requires k < |v| && RepeatFree(v)
    ensures Count(v, v[k]) == 1
  {
    assert RepeatFree(v[1..]) by {
      assert forall i :: 0 <= i < |v[1..]| ==> v[1..][i] == v[i + 1];
    }
    if k > 0 {
      CountsOnce(v[1..], k - 1);
    } else {
      CountsNone(v[1..], v[0]);
    }
  }

  lemma {:induction false} CountsNone(v: Path, x: Address)
    requires x !in v
    ensures Count(v, x) == 0
  {
    if v != [] {
      CountsNone(v[1..], x);
    }
  }

  /** A live route of this discovery to the Target, by another next hop. */
  predicate Disagrees(r: Router, m: Dro, nextHop: Address, now: Time) {
    m.target in r.hopByHop
    && var held := r.hopByHop[m.target];
       held.thisDag && held.expire > now && held.nextHop != nextHop
  }

  /** A listed router acts on a copy exactly when it is its turn, it is still a member, no live route of this DAG points
      elsewhere (H=1), and the vector fits. It then passes the copy on with NH one less. With H=1 it has the entry after
      its own for its next hop, or the Target after the last, even if the vector did not fit. */
  lemma ActsExactly(p: Reply, r: Router, m: Dro, now: Time)
    requires Proper(p) && m == p.first.(nh := m.nh) && !r.isOrigin
    ensures var h := Handle(r, m, now, p.lifetime, p.capacity);
            var towards := Chain(p)[if m.nh < |m.vector| then m.nh + 1 else |m.vector| + 1];
            var takes := && r.member && 0 < m.nh <= |m.vector| && m.vector[m.nh - 1] == r.own
                         && (m.hopByHop ==> !Disagrees(r, m, towards, now));
            && (h.acted <==> takes && |m.vector| <= p.capacity)
            && h.relayed == (if h.acted then Some(m.(nh := m.nh - 1)) else None) && !h.acked
            && h.router == r.(stopped := r.stopped || (r.member && m.stop),
                              hopByHop := if takes && m.hopByHop
                                          then r.hopByHop[m.target := HopRoute(true, towards, now + p.lifetime)]
                                          else r.hopByHop)
  {
    if OwnTurn(r, m) {
      assert RepeatFree(m.vector) by {
        assert forall i :: 0 <= i < |m.vector| ==> m.vector[i] == Chain(p)[i + 1];
      }
      CountsOnce(m.vector, m.nh - 1);
    }
  }

  /** The Origin acts on a copy exactly when it is a member still and asked for that Target, and with H=1 holds no live
      route elsewhere; it relays nothing, and acknowledges exactly what it acts on and is asked to. */
  lemma OriginActsExactly(r: Router, m: Dro, now: Time, lifetime: nat, capacity: nat)
    requires r.isOrigin
    ensures var h := Handle(r, m, now, lifetime, capacity);
            var towards := (m.vector + [m.target])[0];
            && (h.acted <==> r.member && m.target == r.asked && (m.hopByHop ==> !Disagrees(r, m, towards, now)))
            && h.relayed == None && (h.acked <==> h.acted && m.ackRequested)
            && h.router.hopByHop == (if h.acted && m.hopByHop
                                     then r.hopByHop[m.target := HopRoute(true, towards, now + lifetime)]
                                     else r.hopByHop)
            && (m.hopByHop || !h.acted ==> h.router.sourceRoutes == r.sourceRoutes)
            && h.router.stopped == (r.stopped || (r.member && m.target == r.asked && m.stop))
  {
  }

  /** A vector that names a router twice makes it neither act nor relay. */
  lemma NamedTwiceNeverActs(r: Router, m: Dro, now: Time, lifetime: nat, capacity: nat, i: nat, j: nat)
    requires !r.isOrigin && i < j < |m.vector| && m.vector[i] == r.own && m.vector[j] == r.own
    ensures var h := Handle(r, m, now, lifetime, capacity);
            !h.acted && h.relayed == None && h.router == r.(stopped := r.stopped || (r.member && m.stop))
  {
    CountsTwice(m.vector, r.own, i, j);
  }

  lemma {:induction false} CountsTwice(v: Path, x: Address, i: nat, j: nat)
    requires i < j < |v| && v[i] == x && v[j] == x
    ensures Count(v, x) >= 2
  {
    if i > 0 {
      CountsTwice(v[1..], x, i - 1, j - 1);
    } else {
      CountsSome(v[1..], x, j - 1);
    }
  }

  lemma {:induction false} CountsSome(v: Path, x: Address, k: nat)
    requires k < |v| && v[k] == x
    ensures Count(v, x) >= 1
  {
    if k > 0 {
      CountsSome(v[1..], x, k - 1);
    }
  }

  /** Stop binds every member that hears it, listed in the route or not, whatever else it makes of the copy. */
  lemma StopBindsEveryHearer(r: Router, m: Dro, now: Time, lifetime: nat, capacity: nat)
    requires r.member && m.stop && (r.isOrigin ==> m.target == r.asked)
    ensures Handle(r, m, now, lifetime, capacity).router.stopped
  {
  }

  // ---------------------------------------------------------------- the source route left at the Origin

  /** One H=0 reply leaves the Origin a source route that is the chain itself, Origin outward. */
  lemma SourceRouteIsChain(p: Reply, r: Router, m: Dro, now: Time)
    requires Proper(p) && m == p.first.(nh := m.nh) && !m.hopByHop
    requires r.isOrigin && r.own == p.origin && !r.routeStored
    requires Handle(r, m, now, p.lifetime, p.capacity).acted
    ensures var after := Handle(r, m, now, p.lifetime, p.capacity).router;
            m.target in after.sourceRoutes && [p.origin] + after.sourceRoutes[m.target] == Chain(p)
  {
  }

  /** What the Origin holds of its Target is the chain, from when it has stored anything in this discovery. */
  predicate HoldsChain(p: Reply, n: Net) {
    p.origin in n.routers
    && var r := n.routers[p.origin];
       && r.isOrigin && r.own == p.origin
       && ((p.origin, 0) in n.log ==> r.routeStored)
       && (r.routeStored ==>
             p.first.target in r.sourceRoutes && [p.origin] + r.sourceRoutes[p.first.target] == Chain(p))
  }

  lemma {:induction false} RunHoldsChain(p: Reply, n: Net, run: seq<Event>)
    requires Proper(p) && Sound(p, n) && Possible(p, n, run) && !p.first.hopByHop && HoldsChain(p, n)
    ensures HoldsChain(p, After(p, n, run))
    decreases |run|
  {
    if run != [] {
      hide Sound, HoldsChain;
      assert After(p, n, [run[0]]) == Step(p, n, run[0]) by { assert [run[0]][1..] == []; }
      RunIsSound(p, n, [run[0]]);
      RunHoldsChain(p, Step(p, n, run[0]), run[1..]);
    }
  }

  /** With H=0, in any run, once the Origin has acted its source route to the Target is the chain in order, Origin
      outward. */
  lemma SourceRouteLeadsToTarget(p: Reply, routers: map<Address, Router>, run: seq<Event>)
    requires Proper(p) && !p.first.hopByHop && Named(p, Begin(p, routers)) && Possible(p, Begin(p, routers), run)
    requires p.origin in routers && !routers[p.origin].routeStored
    requires (p.origin, 0) in After(p, Begin(p, routers), run).log
    ensures var n := After(p, Begin(p, routers), run);
            && p.origin in n.routers && p.first.target in n.routers[p.origin].sourceRoutes
            && [p.origin] + n.routers[p.origin].sourceRoutes[p.first.target] == Chain(p)
  {
    RunHoldsChain(p, Begin(p, routers), run);
  }

  // ---------------------------------------------------------------- several replies

  datatype Arrival = Arrival(m: Dro, at: Time)

  /** The Origin after handling the replies to one discovery, in the order they arrive. */
  function OriginAfter(r: Router, arrivals: seq<Arrival>, lifetime: nat): Router {
    if arrivals == [] then r
    else
      var last := arrivals[|arrivals| - 1];
      Handle(OriginAfter(r, arrivals[..|arrivals| - 1], lifetime), last.m, last.at, lifetime, 0).router
  }

  predicate Offers(r: Router, a: Arrival) {
    !a.m.hopByHop && a.m.target == r.asked
  }

  /** Arrival i is the last of those whose source route is shortest. */
  ghost predicate Shortest(r: Router, arrivals: seq<Arrival>, i: nat) {
    && i < |arrivals| && Offers(r, arrivals[i])
    && forall j :: 0 <= j < |arrivals| && Offers(r, arrivals[j]) ==>
         |arrivals[i].m.vector| <= |arrivals[j].m.vector|
         && (j > i ==> |arrivals[i].m.vector| < |arrivals[j].m.vector|)
  }

  ghost predicate SomeOffer(r: Router, arrivals: seq<Arrival>) {
    exists i :: 0 <= i < |arrivals| && Offers(r, arrivals[i])
  }

  /** What the Origin holds once `arrivals` have been handled. */
  ghost predicate HasShortest(r: Router, arrivals: seq<Arrival>, after: Router) {
    && after.isOrigin && after.member && after.asked == r.asked && (after.routeStored <==> SomeOffer(r, arrivals))
    && (!after.routeStored ==> after.sourceRoutes == r.sourceRoutes)
    && (after.routeStored ==> exists i: nat :: IsShortest(r, arrivals, after, i))
  }

  ghost predicate IsShortest(r: Router, arrivals: seq<Arrival>, after: Router, i: nat) {
    Shortest(r, arrivals, i) && after.sourceRoutes == r.sourceRoutes[r.asked := arrivals[i].m.vector + [r.asked]]
  }

  lemma OffersGrow(r: Router, front: seq<Arrival>, last: Arrival)
    ensures SomeOffer(r, front + [last]) <==> SomeOffer(r, front) || Offers(r, last)
  {
    var all := front + [last];
    assert all[|front|] == last;
    assert forall i :: 0 <= i < |front| ==> all[i] == front[i];
  }

  lemma OneMoreShortest(r: Router, front: seq<Arrival>, last: Arrival, i: nat)
    requires Shortest(r, front, i)
    ensures !Offers(r, last) ==> Shortest(r, front + [last], i)
    ensures Offers(r, last) ==>
              Shortest(r, front + [last], if |front[i].m.vector| < |last.m.vector| then i else |front|)
  {
    assert forall j :: 0 <= j < |front| ==> (front + [last])[j] == front[j];
    assert (front + [last])[|front|] == last;
  }

  lemma FirstShortest(r: Router, front: seq<Arrival>, last: Arrival)
    requires !SomeOffer(r, front) && Offers(r, last)
    ensures Shortest(r, front + [last], |front|)
  {
    assert forall j :: 0 <= j < |front| ==> (front + [last])[j] == front[j];
  }

  lemma OneMoreReply(r: Router, front: seq<Arrival>, last: Arrival, before: Router, lifetime: nat)
    requires HasShortest(r, front, before)
    ensures HasShortest(r, front + [last], Handle(before, last.m, last.at, lifetime, 0).router)
  {
    hide Shortest, SomeOffer, Conflicts, NextHop;
    var after := Handle(before, last.m, last.at, lifetime, 0).router;
    OffersGrow(r, front, last);
    assert (front + [last])[|front|] == last;
    if before.routeStored {
      var i: nat :| IsShortest(r, front, before, i);
      assert i < |front| by { ShortestIsThere(r, front, i); }
      assert (front + [last])[i] == front[i];
      OneMoreShortest(r, front, last, i);
      var k := if Offers(r, last) && |front[i].m.vector| >= |last.m.vector| then |front| else i;
      assert before.sourceRoutes[r.asked] == front[i].m.vector + [r.asked];
      assert IsShortest(r, front + [last], after, k);
    } else if Offers(r, last) {
      FirstShortest(r, front, last);
      assert IsShortest(r, front + [last], after, |front|);
    }
  }

  lemma ShortestIsThere(r: Router, arrivals: seq<Arrival>, i: nat)
    requires Shortest(r, arrivals, i)
    ensures i < |arrivals|
  {
  }

  /** However many replies arrive, in whatever order and among whatever others, the Origin is left with the route of the
      shortest, of the last among equals, completed by the Target; without any it keeps the routes it had. */
  lemma {:induction false} ShortestIsKept(r: Router, arrivals: seq<Arrival>, lifetime: nat)
    requires r.isOrigin && r.member && !r.routeStored
    ensures HasShortest(r, arrivals, OriginAfter(r, arrivals, lifetime))
  {
    if arrivals != [] {
      var front, last := arrivals[..|arrivals| - 1], arrivals[|arrivals| - 1];
      ShortestIsKept(r, front, lifetime);
      hide HasShortest;
      assert arrivals == front + [last];
      OneMoreReply(r, front, last, OriginAfter(r, front, lifetime), lifetime);
    }
  }
}
