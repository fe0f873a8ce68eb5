/** A whole RREQ flood with H=0: routers that take copies, send their vectors on and leave, each by its own handlers. */
module AodvFlood {
  import opened Lollipop
  import opened RplTypes
  import opened AodvRreq
  import AodvRoutes
  import F = FloodPaths

  datatype Net = Net(
    origin: Address, routers: map<Address, Router>, sent: set<F.Copy>, links: set<(Address, Address)>)

  /** What every router is configured with. */
  datatype Policy = Policy(rejoinReenable: nat, forceAsymmetric: bool)

  datatype Event =
    | OriginSends
    | Hears(x: Address, copy: F.Copy, d: Rreq, now: Time, s: Selection, upward: bool, stored: Option<Byte>)
    | Sends(x: Address)
    | Reselects(x: Address, s: Selection, now: Time)
    | Expires(x: Address, now: Time)

  function NodeAt(p: Policy, n: Net, x: Address): Node {
    Node(x, n.origin, p.rejoinReenable, p.forceAsymmetric)
  }

  function RouterAt(n: Net, x: Address): Router {
    if x in n.routers then n.routers[x] else Router(None, None)
  }

  predicate IsMember(n: Net, x: Address) {
    x in n.routers && n.routers[x].member.Some?
  }

  predicate Enabled(n: Net, e: Event) {
    match e
    case OriginSends => true
    case Hears(x, copy, d, _, _, _, _) =>
      x != n.origin && copy in n.sent && d.vector == copy.vector && !d.hopByHop && Comparable(d)
    case Sends(x) => IsMember(n, x) && SendsRreq(n.routers[x].member.value)
    case Reselects(x, _, _) => IsMember(n, x)
    case Expires(x, _) => IsMember(n, x)
  }

  function Step(p: Policy, n: Net, e: Event): Net
    requires Enabled(n, e)
  {
    match e
    case OriginSends => n.(sent := n.sent + {F.Copy(n.origin, [])})
    case Hears(x, copy, d, now, s, upward, stored) =>
      var r := HandleDio(NodeAt(p, n, x), RouterAt(n, x), d, copy.sender, now, s, upward, stored);
      n.(routers := n.routers[x := r], links := n.links + {(copy.sender, x)})
    case Sends(x) => n.(sent := n.sent + {F.Copy(x, n.routers[x].member.value.vector)})
    case Reselects(x, s, now) => n.(routers := n.routers[x := Selected(NodeAt(p, n, x), n.routers[x], s, now)])
    case Expires(x, now) => n.(routers := n.routers[x := Leave(NodeAt(p, n, x), n.routers[x], now)])
  }

  predicate Possible(p: Policy, n: Net, run: seq<Event>)
    decreases |run|
  {
    run == [] || (Enabled(n, run[0]) && Possible(p, Step(p, n, run[0]), run[1..]))
  }

  function After(p: Policy, n: Net, run: seq<Event>): Net
    requires Possible(p, n, run)
    decreases |run|
  {
    if run == [] then n else After(p, Step(p, n, run[0]), run[1..])
  }

  // ---------------------------------------------------------------- the flood it is

  /** A member has a vector, of at most as many entries as an option holds. */
  predicate Provided(r: Router) {
    r.member.Some? ==> 0 < |r.member.value.vector| <= ADDRESS_VECTOR_MAX_ENTRIES
  }

  /** `f` accounts for every vector and copy of `n`. */
  ghost predicate Covers(f: F.Net, n: Net) {
    && f.root == n.origin && n.origin !in n.routers && n.sent <= f.sent && f.links <= n.links
    && (forall x :: x in n.routers ==> Provided(n.routers[x]))
    && (forall x :: AodvRoutes.VectorOf(RouterAt(n, x)) == F.VectorAt(f, x))
  }

  lemma HearingIsProvided(n: Node, r: Router, d: Rreq, from: Address, now: Time, s: Selection, upward: bool,
                          stored: Option<Byte>)
    requires Comparable(d) && !d.hopByHop && Provided(r)
    ensures Provided(HandleDio(n, r, d, from, now, s, upward, stored))
  {
    hide Refuses, Recorded;
  }

  lemma OneRouterChanges(f: F.Net, n: Net, g: F.Net, n': Net, x: Address)
    requires Covers(f, n) && x != n.origin && x in n'.routers && n' == n.(routers := n'.routers, links := n'.links)
    requires n'.routers == n.routers[x := n'.routers[x]] && Provided(n'.routers[x])
    requires g == f.(vectors := g.vectors, links := g.links) && g.links <= n'.links
    requires g.vectors - {x} == f.vectors - {x} && F.VectorAt(g, x) == AodvRoutes.VectorOf(n'.routers[x])
    ensures Covers(g, n')
  {
    hide Provided, AodvRoutes.VectorOf;
    forall y ensures AodvRoutes.VectorOf(RouterAt(n', y)) == F.VectorAt(g, y) {
      if y != x {
        assert RouterAt(n', y) == RouterAt(n, y);
        assert y in g.vectors <==> y in g.vectors - {x};
        assert y in f.vectors <==> y in f.vectors - {x};
        assert y in g.vectors ==> g.vectors[y] == (g.vectors - {x})[y] == (f.vectors - {x})[y];
      }
    }
  }

  lemma HearingIsFlooding(f: F.Net, p: Policy, n: Net, e: Event) returns (g: F.Net)
    requires Covers(f, n) && F.Sound(f) && Enabled(n, e) && e.Hears?
    ensures Covers(g, Step(p, n, e)) && F.Sound(g)
  {
    hide F.Sound, HandleDio, Provided, AodvRoutes.VectorOf;
    var node, r := NodeAt(p, n, e.x), RouterAt(n, e.x);
    NobodyIsProvided();
    AodvRoutes.RreqTakes(node, r, e.d, e.copy.sender, e.now, e.s, e.upward, e.stored);
    HearingIsProvided(node, r, e.d, e.copy.sender, e.now, e.s, e.upward, e.stored);
    var after := AodvRoutes.VectorOf(HandleDio(node, r, e.d, e.copy.sender, e.now, e.s, e.upward, e.stored));
    F.StepIsSound(f, F.Hears(e.x, e.copy, after));
    g := F.Step(f, F.Hears(e.x, e.copy, after));
    OneRouterChanges(f, n, g, Step(p, n, e), e.x);
  }

  lemma NobodyIsProvided()
    ensures Provided(Router(None, None))
  {
  }

  lemma StepIsFlooding(f: F.Net, p: Policy, n: Net, e: Event) returns (g: F.Net)
    requires Covers(f, n) && F.Sound(f) && Enabled(n, e)
    ensures Covers(g, Step(p, n, e)) && F.Sound(g)
  {
    hide F.Sound, HandleDio;
    assert forall x :: Step(p, n, e).routers == n.routers ==> RouterAt(Step(p, n, e), x) == RouterAt(n, x);
    match e
    case OriginSends =>
      F.StepIsSound(f, F.Sends(n.origin));
      g := F.Step(f, F.Sends(n.origin));
      assert F.VectorAt(f, n.origin) == AodvRoutes.VectorOf(RouterAt(n, n.origin));
    case Hears(_, _, _, _, _, _, _) =>
      g := HearingIsFlooding(f, p, n, e);
    case Sends(x) =>
      assert F.VectorAt(f, x) == AodvRoutes.VectorOf(RouterAt(n, x));
      F.StepIsSound(f, F.Sends(x));
      g := F.Step(f, F.Sends(x));
    case Reselects(x, s, now) =>
      if s.Loses? {
        F.StepIsSound(f, F.Leaves(x));
        g := F.Step(f, F.Leaves(x));
      } else {
        g := f;
        assert F.VectorAt(f, x) == AodvRoutes.VectorOf(RouterAt(n, x));
      }
      OneRouterChanges(f, n, g, Step(p, n, e), x);
    case Expires(x, now) =>
      F.StepIsSound(f, F.Leaves(x));
      g := F.Step(f, F.Leaves(x));
      OneRouterChanges(f, n, g, Step(p, n, e), x);
  }

  lemma {:induction false} RunIsFlooding(f: F.Net, p: Policy, n: Net, run: seq<Event>) returns (g: F.Net)
    requires Covers(f, n) && F.Sound(f) && Possible(p, n, run)
    ensures Covers(g, After(p, n, run)) && F.Sound(g) && After(p, n, run).origin == n.origin
    decreases |run|
  {
    if run == [] {
      g := f;
    } else {
      var next := StepIsFlooding(f, p, n, run[0]);
      g := RunIsFlooding(next, p, Step(p, n, run[0]), run[1..]);
    }
  }

  /** In any run of an RREQ flood with H=0, whoever joins, leaves and joins again, and whatever is lost, repeated or
      reordered, every vector in flight is a simple path from the OrigNode to its sender over links that delivered, and
      every member holds one to itself, of at most 15 entries. */
  lemma RreqVectorsAreSimplePaths(p: Policy, origin: Address, run: seq<Event>)
    requires Possible(p, Net(origin, map[], {}, {}), run)
    ensures var n := After(p, Net(origin, map[], {}, {}), run);
            && (forall c :: c in n.sent ==> F.SoundCopy(origin, c, n.links))
            && (forall x :: IsMember(n, x) ==>
                  var vector := n.routers[x].member.value.vector;
                  F.PathTo(origin, x, vector, n.links) && |vector| <= ADDRESS_VECTOR_MAX_ENTRIES)
  {
    hide F.PathTo;
    var n := After(p, Net(origin, map[], {}, {}), run);
    var f := RunIsFlooding(F.Net(origin, map[], {}, {}, {}), p, Net(origin, map[], {}, {}), run);
    forall c | c in n.sent ensures F.SoundCopy(origin, c, n.links) {
      if c.sender != origin { F.MoreLinks(origin, c.sender, c.vector, f.links, n.links); }
    }
    forall x | IsMember(n, x)
      ensures F.PathTo(origin, x, n.routers[x].member.value.vector, n.links)
      ensures |n.routers[x].member.value.vector| <= ADDRESS_VECTOR_MAX_ENTRIES
    {
      assert Provided(n.routers[x]);
      assert F.VectorAt(f, x) == AodvRoutes.VectorOf(RouterAt(n, x));
      F.MoreLinks(origin, x, f.vectors[x], f.links, n.links);
    }
  }
}
