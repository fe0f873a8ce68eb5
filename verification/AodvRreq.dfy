/** One router's part in one AODV-RPL route discovery (RFC 9854) that it did not start: which RREQ-DIOs it takes, what
    it records from them, and when it answers. */
module AodvRreq {
  import opened Lollipop
  import opened RplTypes
  import opened Paths

  const ADDRESS_VECTOR_MAX_ENTRIES := 15
  const RANK_LIMIT_INFINITE: Byte := 0

  datatype Rreq = Rreq(
    symmetric: bool, hopByHop: bool, lifetime: Byte, rankLimit: Byte, origSeqNo: Byte, vector: seq<Address>,
    targets: seq<Address>, rank: Rank, minHop: nat)

  /** Membership of the RREQ-Instance. `replies` counts the RREPs it has given rise to. */
  datatype Member = Member(
    preferred: Address, symmetric: bool, hopByHop: bool, lifetime: Byte, rankLimit: Byte, origSeqNo: Byte,
    target: Address, targets: seq<Address>, seeded: bool, isTarget: bool, vector: seq<Address>, expiry: Option<Time>,
    replies: nat)

  /** The router's address, the discovery's OrigNode, and what is configured. */
  datatype Node = Node(own: Address, origin: Address, rejoinReenable: nat, forceAsymmetric: bool)

  datatype Router = Router(member: Option<Member>, barredUntil: Option<Time>)

  /** What parent selection makes of a DIO: a preferred parent, or none left and the instance with it. */
  datatype Selection = Loses | Prefers(parent: Address)

  function LifetimeSeconds(field: Byte): nat {
    match field % 4
    case 1 => 16
    case 2 => 64
    case 3 => 256
    case _ => 0
  }

  // ---------------------------------------------------------------- what is refused

  predicate Barred(r: Router, now: Time) {
    r.barredUntil.Some? && now < r.barredUntil.value
  }

  /** A RankLimit is compared in whole hops, so a DIO that sets one has to have a hop that costs something. */
  predicate Comparable(d: Rreq) {
    d.rankLimit == RANK_LIMIT_INFINITE || d.minHop > 0
  }

  /** Past the RankLimit; a router named as a target may sit at it. */
  predicate PastRankLimit(n: Node, d: Rreq)
    requires Comparable(d)
  {
    && d.rankLimit != RANK_LIMIT_INFINITE
    && var advertised := d.rank / d.minHop;
       advertised >= d.rankLimit
       || (if n.own in d.targets then advertised + 1 > d.rankLimit else advertised + 1 >= d.rankLimit)
  }

  /** `storedSeqNo` is that of a live hop-by-hop route to the OrigNode. */
  predicate Refuses(n: Node, r: Router, d: Rreq, now: Time, storedSeqNo: Option<Byte>)
    requires Comparable(d)
  {
    || d.targets == []
    || Barred(r, now)
    || n.own == n.origin
    || (d.hopByHop && storedSeqNo.Some? && Newer(storedSeqNo.value, d.origSeqNo))
    || (!d.hopByHop && n.own in d.vector)
    || PastRankLimit(n, d)
  }

  // ---------------------------------------------------------------- what is recorded

  function Intersected(stored: seq<Address>, incoming: seq<Address>): seq<Address> {
    if stored == [] then []
    else (if stored[0] in incoming then [stored[0]] else []) + Intersected(stored[1..], incoming)
  }

  function Without(targets: seq<Address>, own: Address): seq<Address> {
    if targets == [] then [] else (if targets[0] == own then [] else [targets[0]]) + Without(targets[1..], own)
  }

  lemma {:induction false} IntersectedOneMore(stored: seq<Address>, a: Address, incoming: seq<Address>)
    ensures Intersected(stored + [a], incoming) == Intersected(stored, incoming) + if a in incoming then [a] else []
  {
    if stored == [] {
      assert stored + [a] == [a] && [a][1..] == [];
    } else {
      assert (stored + [a])[1..] == stored[1..] + [a];
      IntersectedOneMore(stored[1..], a, incoming);
      Associates(if stored[0] in incoming then [stored[0]] else [], Intersected(stored[1..], incoming),
                 if a in incoming then [a] else []);
    }
  }

  lemma {:induction false} WithoutOneMore(targets: seq<Address>, a: Address, own: Address)
    ensures Without(targets + [a], own) == Without(targets, own) + if a == own then [] else [a]
  {
    if targets == [] {
      assert targets + [a] == [a] && [a][1..] == [];
    } else {
      assert (targets + [a])[1..] == targets[1..] + [a];
      WithoutOneMore(targets[1..], a, own);
      Associates(if targets[0] == own then [] else [targets[0]], Without(targets[1..], own),
                 if a == own then [] else [a]);
    }
  }

  const FRESH_MEMBER := Member(ANY, true, false, 0, 0, 0, ANY, [], false, false, [], None, 0)

  /** The bar is armed on leaving only if a target was ever recorded. */
  function Leave(n: Node, r: Router, now: Time): Router
    requires r.member.Some?
  {
    Router(None, if r.member.value.target != ANY then Some(now + n.rejoinReenable) else r.barredUntil)
  }

  /** L runs from the first copy that carries a nonzero one. */
  function Armed(expiry: Option<Time>, lifetime: Byte, now: Time): Option<Time> {
    if LifetimeSeconds(lifetime) == 0 || expiry.Some? then expiry else Some(now + LifetimeSeconds(lifetime))
  }

  predicate AlreadyProcessed(m: Member, hopByHop: bool) {
    if hopByHop then m.seeded else m.vector != []
  }

  predicate Ignores(m: Member, d: Rreq, from: Address) {
    (m.isTarget && m.targets == []) || (AlreadyProcessed(m, d.hopByHop) && from != m.preferred)
  }

  function Remaining(m: Member, d: Rreq): seq<Address> {
    if AlreadyProcessed(m, d.hopByHop) then Intersected(m.targets, d.targets) else d.targets
  }

  function Recorded(n: Node, m: Member, d: Rreq, now: Time): Member
    requires d.targets != []
  {
    var left := Remaining(m, d);
    m.(origSeqNo := d.origSeqNo, rankLimit := d.rankLimit, lifetime := d.lifetime, hopByHop := d.hopByHop,
       target := d.targets[0], expiry := Armed(m.expiry, d.lifetime, now), targets := Without(left, n.own),
       seeded := true, isTarget := m.isTarget || n.own in left, symmetric := d.symmetric && !n.forceAsymmetric)
  }

  /** `upward`: with H=1, whether a preferred parent exists and the route through it could be stored. */
  function Processed(n: Node, r: Router, d: Rreq, from: Address, now: Time, upward: bool): Router
    requires d.targets != []
  {
    if r.member.None? then r.(barredUntil := None)
    else
      var m := r.member.value;
      if Ignores(m, d, from) then r.(barredUntil := None)
      else
        var next := Recorded(n, m, d, now);
        var replies := m.replies + if n.own in Remaining(m, d) then 1 else 0;
        if d.hopByHop then Router(Some(if upward then next.(replies := replies) else next), None)
        else if |d.vector| >= ADDRESS_VECTOR_MAX_ENTRIES then Leave(n, Router(Some(next), None), now)
        else Router(Some(next.(vector := d.vector + [n.own], replies := replies)), None)
  }

  function Selected(n: Node, r: Router, s: Selection, now: Time): Router
    requires r.member.Some?
  {
    match s
    case Loses => Leave(n, r, now)
    case Prefers(p) => r.(member := Some(r.member.value.(preferred := p)))
  }

  /** An RREQ-DIO from a neighbour. */
  function HandleDio(n: Node, r: Router, d: Rreq, from: Address, now: Time, s: Selection, upward: bool,
                     storedSeqNo: Option<Byte>): Router
    requires Comparable(d)
  {
    if Refuses(n, r, d, now, storedSeqNo) then r
    else if d.rank == INFINITE_RANK then if r.member.None? then r else Selected(n, r, s, now)
    else
      var joined := if r.member.None? then r.(member := Some(FRESH_MEMBER)) else r;
      var selected := Selected(n, joined, s, now);
      if selected.member.None? then selected else Processed(n, selected, d, from, now, upward)
  }

  /** Whether a Trickle firing lets an RREQ-DIO out. */
  predicate SendsRreq(m: Member) {
    m.target != ANY && m.targets != []
  }

  // ---------------------------------------------------------------- the router object

  class AodvRouter {
    const node: Node
    var member: Option<Member>
    var barredUntil: Option<Time>

    function State(): Router
      reads this
    {
      Router(member, barredUntil)
    }

    constructor (node: Node)
      ensures this.node == node && State() == Router(None, None)
    {
      this.node := node;
      member, barredUntil := None, None;
    }

    method LeaveInstance(now: Time)
      requires member.Some?
      modifies this
      ensures State() == Leave(node, old(State()), now)
    {
      if member.value.target != ANY {
        barredUntil := Some(now + node.rejoinReenable);
      }
      member := None;
    }

    /** Deletes this router's own address from the record, reporting whether it was there. */
    method DeleteOwn(targets: seq<Address>) returns (left: seq<Address>, matched: bool)
      ensures left == Without(targets, node.own) && matched == (node.own in targets)
    {
      left, matched := [], false;
      assert Without(targets[..0], node.own) == [];
      hide Without;
      for k := 0 to |targets|
        invariant left == Without(targets[..k], node.own)
        invariant matched == (node.own in targets[..k])
      {
        WithoutOneMore(targets[..k], targets[k], node.own);
        assert targets[..k + 1] == targets[..k] + [targets[k]];
        if targets[k] == node.own {
          matched := true;
        } else {
          left := left + [targets[k]];
        }
      }
      assert targets[..|targets|] == targets;
    }

    method Intersect(stored: seq<Address>, incoming: seq<Address>) returns (both: seq<Address>)
      ensures both == Intersected(stored, incoming)
    {
      both := [];
      assert Intersected(stored[..0], incoming) == [];
      hide Intersected;
      for k := 0 to |stored|
        invariant both == Intersected(stored[..k], incoming)
      {
        IntersectedOneMore(stored[..k], stored[k], incoming);
        assert stored[..k + 1] == stored[..k] + [stored[k]];
        if stored[k] in incoming {
          both := both + [stored[k]];
        }
      }
      assert stored[..|stored|] == stored;
    }

    /** What a copy that is not ignored leaves recorded. */
    method Record(m: Member, d: Rreq, now: Time) returns (next: Member, matched: bool)
      requires d.targets != []
      ensures next == Recorded(node, m, d, now) && matched == (node.own in Remaining(m, d))
    {
      next := m.(origSeqNo := d.origSeqNo, rankLimit := d.rankLimit, lifetime := d.lifetime, hopByHop := d.hopByHop,
                 target := d.targets[0]);
      if LifetimeSeconds(d.lifetime) != 0 && m.expiry.None? {
        next := next.(expiry := Some(now + LifetimeSeconds(d.lifetime)));
      }
      var record := d.targets;
      if (if d.hopByHop then m.seeded else m.vector != []) {
        record := Intersect(m.targets, d.targets);
      }
      var left;
      left, matched := DeleteOwn(record);
      next := next.(targets := left, seeded := true, isTarget := m.isTarget || matched,
                    symmetric := d.symmetric && !node.forceAsymmetric);
    }

    /** The content of an RREQ-DIO, once its sender has been weighed as a parent. */
    method HandleAodvRreq(d: Rreq, from: Address, now: Time, upward: bool)
      requires d.targets != []
      modifies this
      ensures State() == Processed(node, old(State()), d, from, now, upward)
    {
      barredUntil := None;
      if member.None? {
        return;
      }
      var m := member.value;
      if m.isTarget && m.targets == [] {
        return;
      }
      var alreadyProcessed := if d.hopByHop then m.seeded else m.vector != [];
      if alreadyProcessed && from != m.preferred {
        return;
      }
      var next, matched := Record(m, d, now);
      member := Some(next);
      if d.hopByHop {
        if !upward {
          return;
        }
      } else {
        if |d.vector| >= ADDRESS_VECTOR_MAX_ENTRIES {
          LeaveInstance(now);
          return;
        }
        member := Some(next.(vector := d.vector + [node.own]));
      }
      if matched {
        member := Some(member.value.(replies := m.replies + 1));
      }
    }

    method HandleRreqDio(d: Rreq, from: Address, now: Time, s: Selection, upward: bool, storedSeqNo: Option<Byte>)
      requires Comparable(d)
      modifies this
      ensures State() == HandleDio(node, old(State()), d, from, now, s, upward, storedSeqNo)
    {
      if Refuses(node, State(), d, now, storedSeqNo) {
        return;
      }
      if d.rank == INFINITE_RANK && member.None? {
        return;
      }
      if member.None? {
        member := Some(FRESH_MEMBER);
      }
      if s.Loses? {
        LeaveInstance(now);
        return;
      }
      member := Some(member.value.(preferred := s.parent));
      if d.rank != INFINITE_RANK {
        HandleAodvRreq(d, from, now, upward);
      }
    }
  }
}
