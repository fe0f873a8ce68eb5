/** A whole P2P-RPL flood: routers that take copies, keep candidate routes and send either, each by its own handlers. */
module P2pFlood {
  import opened RplTypes
  import F = FloodPaths
  import R = P2pReply
  import C = P2pCandidates

  /** A member of the temporary DAG. */
  datatype Router = Router(target: R.Target, candidates: C.Candidates)

  datatype Net = Net(
    origin: Address, routers: map<Address, Router>, sent: set<F.Copy>, links: set<(Address, Address)>)

  /** The acknowledgement policy every router is configured with. */
  datatype Policy = Policy(ackRequested: bool, maxRetransmissions: nat)

  /** Reacts covers what is no DIO: timers, windows, acknowledgements, Stop. */
  datatype Event =
    | OriginSends
    | Hears(x: Address, copy: F.Copy, d: R.Rdo, ranks: C.Ranks)
    | Advertises(x: Address, ranks: C.Ranks, draw: nat)
    | Reacts(x: Address, e: R.Event)
    | Leaves(x: Address)

  function ConfigAt(p: Policy, x: Address): R.Config {
    R.Config(x, p.ackRequested, p.maxRetransmissions)
  }

  const FRESH := Router(R.FRESH, C.Candidates([], INFINITE_RANK))

  function RouterAt(n: Net, x: Address): Router {
    if x in n.routers then n.routers[x] else FRESH
  }

  /** A DIO that is not refused is weighed as a candidate first and handled after. */
  function Processed(p: Policy, x: Address, r: Router, copy: F.Copy, d: R.Rdo, ranks: C.Ranks): Router {
    Router(R.HandleRdo(ConfigAt(p, x), r.target, d).target,
           C.Recorded(ranks, r.candidates, x, copy.sender, d.heard, d.capacity))
  }

  predicate Enabled(n: Net, e: Event) {
    match e
    case OriginSends => true
    case Hears(x, copy, d, ranks) => x != n.origin && copy in n.sent && d.heard == copy.vector
    case Advertises(x, ranks, draw) => x in n.routers && n.routers[x].target.vector != []
    case Reacts(x, e) => x in n.routers && !e.Dio? && R.Enabled(n.routers[x].target, e)
    case Leaves(x) => true
  }

  /** A router is dropped once it has left the DAG. */
  function With(routers: map<Address, Router>, x: Address, r: Router): map<Address, Router> {
    if r.target.member then routers[x := r] else routers - {x}
  }

  function Step(p: Policy, n: Net, e: Event): Net
    requires Enabled(n, e)
  {
    match e
    case OriginSends => n.(sent := n.sent + {F.Copy(n.origin, [])})
    case Hears(x, copy, d, ranks) =>
      if R.Refuses(ConfigAt(p, x), RouterAt(n, x).target, d) then n
      else n.(routers := With(n.routers, x, Processed(p, x, RouterAt(n, x), copy, d, ranks)),
              links := n.links + {(copy.sender, x)})
    case Advertises(x, ranks, draw) =>
      var r := n.routers[x];
      n.(routers := n.routers[x := r.(candidates := C.Pruned(ranks, r.candidates))],
         sent := n.sent + {F.Copy(x, C.Advertised(ranks, r.candidates, r.target.vector, draw))})
    case Reacts(x, e) =>
      var r := n.routers[x];
      n.(routers := With(n.routers, x, r.(target := R.React(ConfigAt(p, x), r.target, e).target)))
    case Leaves(x) => n.(routers := n.routers - {x})
  }

  predicate Possible(p: Policy, n: Net, run: seq<Event>)
    decreases |run|
  {
    run == [] || (Enabled(n, run[0]) && Possible(p, Step(p, n, run[0]), run[1..]))
  }

  function After(p: Policy, n: Net, run: seq<Event>): Net
    requires Possible(p, n, run)
    decreases |run|
  {
    if run == [] then n else After(p, Step(p, n, run[0]), run[1..])
  }

  // ---------------------------------------------------------------- the flood it is

  /** `f` accounts for every vector, candidate and copy of `n`. */
  ghost predicate Covers(f: F.Net, n: Net) {
    && f.root == n.origin && n.origin !in n.routers && n.sent <= f.sent && f.links <= n.links
    && (forall x :: x in n.routers ==> n.routers[x].target.member)
    && (forall x :: x in n.routers ==> R.VectorOf(n.routers[x].target) == F.VectorAt(f, x))
    && (forall x :: x !in n.routers ==> F.VectorAt(f, x) == None)
    && (forall x, c :: x in n.routers && c in n.routers[x].candidates.kept ==> F.Copy(x, c.route) in f.kept)
  }

  /** Candidates recorded from a copy not refused are ones the flood may keep. */
  lemma RecordingIsKeeping(f: F.Net, p: Policy, n: Net, x: Address, copy: F.Copy, d: R.Rdo, ranks: C.Ranks)
    requires Covers(f, n) && Enabled(n, Hears(x, copy, d, ranks))
    requires !R.Refuses(ConfigAt(p, x), RouterAt(n, x).target, d)
    ensures F.Enabled(f, F.Keeps(x, copy))
    ensures forall c :: c in Processed(p, x, RouterAt(n, x), copy, d, ranks).candidates.kept ==>
              F.Copy(x, c.route) in F.Step(f, F.Keeps(x, copy)).kept
  {
    C.KeptWereHeard(ranks, RouterAt(n, x).candidates, x, copy.sender, d.heard, d.capacity);
  }

  /** Hearing a copy is, in the flood, keeping a route and then taking or not taking the vector. */
  lemma HearingIsFlooding(f: F.Net, p: Policy, n: Net, x: Address, copy: F.Copy, d: R.Rdo, ranks: C.Ranks)
    returns (g: F.Net)
    requires Covers(f, n) && F.Sound(f) && Enabled(n, Hears(x, copy, d, ranks))
    ensures Covers(g, Step(p, n, Hears(x, copy, d, ranks))) && F.Sound(g)
  {
    hide R.HandleRdo, C.Recorded, F.Sound, F.PathTo;
    var r := RouterAt(n, x);
    if R.Refuses(ConfigAt(p, x), r.target, d) {
      g := f;
    } else {
      RecordingIsKeeping(f, p, n, x, copy, d, ranks);
      R.RdoTakes(ConfigAt(p, x), r.target, d);
      F.StepIsSound(f, F.Keeps(x, copy));
      var kept := F.Step(f, F.Keeps(x, copy));
      var after := R.VectorOf(R.HandleRdo(ConfigAt(p, x), r.target, d).target);
      assert F.Enabled(kept, F.Hears(x, copy, after));
      F.StepIsSound(kept, F.Hears(x, copy, after));
      g := F.Step(kept, F.Hears(x, copy, after));
    }
  }

  /** Timers, windows, acknowledgements and Stop leave the vector alone. */
  lemma ReactingKeepsVector(c: R.Config, t: R.Target, e: R.Event)
    requires !e.Dio?
    ensures var after := R.React(c, t, e).target;
            after.vector == t.vector && (after.member <==> t.member && !e.Leave?)
  {
    hide R.AlternateDros, R.Others;
    match e
    case Retry =>
    case Window =>
    case Ack(n) =>
    case StopHeard =>
    case Leave =>
  }

  /** What is advertised is a route kept or the router's own vector. */
  lemma AdvertisingIsFlooding(f: F.Net, p: Policy, n: Net, x: Address, ranks: C.Ranks, draw: nat) returns (g: F.Net)
    requires Covers(f, n) && F.Sound(f) && Enabled(n, Advertises(x, ranks, draw))
    ensures Covers(g, Step(p, n, Advertises(x, ranks, draw))) && F.Sound(g)
  {
    hide C.Pruned, F.Sound;
    var r := n.routers[x];
    C.KeptWereHeard(ranks, r.candidates, x, x, [], 0);
    var pruned := C.Pruned(ranks, r.candidates).kept;
    var sends := if pruned == [] then F.Sends(x) else F.SendsKept(F.Copy(x, pruned[draw % |pruned|].route));
    F.StepIsSound(f, sends);
    g := F.Step(f, sends);
  }

  lemma StepIsFlooding(f: F.Net, p: Policy, n: Net, e: Event) returns (g: F.Net)
    requires Covers(f, n) && F.Sound(f) && Enabled(n, e)
    ensures Covers(g, Step(p, n, e)) && F.Sound(g)
  {
    hide R.React, R.HandleRdo, C.Pruned, C.Recorded, C.Advertised, F.Sound;
    match e
    case OriginSends =>
      F.StepIsSound(f, F.Sends(n.origin));
      g := F.Step(f, F.Sends(n.origin));
    case Hears(x, copy, d, ranks) =>
      g := HearingIsFlooding(f, p, n, x, copy, d, ranks);
    case Advertises(x, ranks, draw) =>
      g := AdvertisingIsFlooding(f, p, n, x, ranks, draw);
    case Reacts(x, reaction) =>
      ReactingKeepsVector(ConfigAt(p, x), n.routers[x].target, reaction);
      if reaction.Leave? {
        F.StepIsSound(f, F.Leaves(x));
        g := F.Step(f, F.Leaves(x));
      } else {
        g := f;
      }
    case Leaves(x) =>
      F.StepIsSound(f, F.Leaves(x));
      g := F.Step(f, F.Leaves(x));
  }

  lemma {:induction false} RunIsFlooding(f: F.Net, p: Policy, n: Net, run: seq<Event>) returns (g: F.Net)
    requires Covers(f, n) && F.Sound(f) && Possible(p, n, run)
    ensures Covers(g, After(p, n, run)) && F.Sound(g) && After(p, n, run).origin == n.origin
    decreases |run|
  {
    if run == [] {
      g := f;
    } else {
      var next := StepIsFlooding(f, p, n, run[0]);
      g := RunIsFlooding(next, p, Step(p, n, run[0]), run[1..]);
    }
  }

  /** In any run of a P2P-RPL flood, whichever candidates are drawn and whatever is lost, repeated or reordered, every
      vector in flight is a simple path from the Origin to its sender over links that delivered, and so is every vector
      and candidate a router holds. */
  lemma P2pVectorsAreSimplePaths(p: Policy, origin: Address, run: seq<Event>)
    requires Possible(p, Net(origin, map[], {}, {}), run)
    ensures var n := After(p, Net(origin, map[], {}, {}), run);
            && (forall c :: c in n.sent ==> F.SoundCopy(origin, c, n.links))
            && (forall x :: x in n.routers && n.routers[x].target.vector != [] ==>
                  F.PathTo(origin, x, n.routers[x].target.vector, n.links))
            && (forall x, c :: x in n.routers && c in n.routers[x].candidates.kept ==>
                  F.PathTo(origin, x, c.route, n.links))
  {
    var n := After(p, Net(origin, map[], {}, {}), run);
    var f := RunIsFlooding(F.Net(origin, map[], {}, {}, {}), p, Net(origin, map[], {}, {}), run);
    forall c | c in n.sent ensures F.SoundCopy(origin, c, n.links) {
      if c.sender != origin { F.MoreLinks(origin, c.sender, c.vector, f.links, n.links); }
    }
    forall x | x in n.routers && n.routers[x].target.vector != []
      ensures F.PathTo(origin, x, n.routers[x].target.vector, n.links)
    {
      assert F.VectorAt(f, x) == R.VectorOf(n.routers[x].target);
      F.MoreLinks(origin, x, f.vectors[x], f.links, n.links);
    }
    forall x, c | x in n.routers && c in n.routers[x].candidates.kept ensures F.PathTo(origin, x, c.route, n.links) {
      assert F.Copy(x, c.route) in f.kept;
      F.MoreLinks(origin, x, c.route, f.links, n.links);
    }
  }
}
