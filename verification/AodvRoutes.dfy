/** From an Address Vector to a route: the symmetric RREP's way back, and the reversal an asymmetric one needs. */
module AodvRoutes {
  import opened Lollipop
  import opened RplTypes
  import opened Paths
  import opened FloodPaths
  import opened AodvRreq

  // ---------------------------------------------------------------- the two floods

  function VectorOf(r: Router): Option<Path> {
    if r.member.Some? && r.member.value.vector != [] then Some(r.member.value.vector) else None
  }

  /** With H=0 an RREQ-DIO does to a router's vector what a flood may. */
  lemma RreqTakes(n: Node, r: Router, d: Rreq, from: Address, now: Time, s: Selection, upward: bool,
                  stored: Option<Byte>)
    requires Comparable(d) && !d.hopByHop
    ensures Took(n.own, VectorOf(r), d.vector, VectorOf(HandleDio(n, r, d, from, now, s, upward, stored)))
    ensures var after := VectorOf(HandleDio(n, r, d, from, now, s, upward, stored));
            after != VectorOf(r) && after.Some? ==> |after.value| <= ADDRESS_VECTOR_MAX_ENTRIES
  {
  }

  /** A router's part in the flood of an RREP-Instance (H=0). */
  class RrepInstance {
    const own: Address
    const origNode: Address
    const targNode: Address
    var vector: Path
    var preferred: Address
    var left: bool
    var route: Option<Path>

    constructor (own: Address, origNode: Address, targNode: Address)
      ensures this.own == own && this.origNode == origNode && this.targNode == targNode
      ensures vector == [] && !left && route == None && preferred == ANY
    {
      this.own, this.origNode, this.targNode := own, origNode, targNode;
      vector, left, route, preferred := [], false, None, ANY;
    }

    predicate Refuses(heard: Path) {
      own == targNode || own in heard
    }

    function Vector(): Option<Path>
      reads this
    {
      if left || vector == [] then None else Some(vector)
    }

    /** The hops from the OrigNode outward: this vector without its own last entry, reversed, then the TargNode. */
    method Outward() returns (hops: Path)
      requires vector != []
      ensures hops == Reversed(vector[..|vector| - 1]) + [targNode]
    {
      hops := [];
      var i := |vector| - 1;
      while i > 0
        invariant 0 <= i < |vector|
        invariant hops == Reversed(vector[i..|vector| - 1])
      {
        i := i - 1;
        ghost var rest := vector[i..|vector| - 1];
        assert rest[0] == vector[i] && rest[1..] == vector[i + 1..|vector| - 1];
        hops := hops + [vector[i]];
      }
      hops := hops + [targNode];
    }

    /** `parent` is what parent selection has made of this DIO. */
    method HandleAodvRrepInstance(heard: Path, from: Address, parent: Address)
      requires !left
      modifies this
      ensures Took(own, old(Vector()), heard, Vector())
      ensures route == old(route)
           || (own == origNode && own !in heard && Vector() == Some(heard + [own])
               && route == Some(Reversed(heard) + [targNode]))
      ensures own == origNode && !Refuses(heard) && (old(vector) == [] || from == parent)
              && |heard| < ADDRESS_VECTOR_MAX_ENTRIES
              ==> route == Some(Reversed(heard) + [targNode])
    {
      if Refuses(heard) {
        return;
      }
      preferred := parent;
      if vector != [] && from != preferred {
        return;
      }
      if |heard| >= ADDRESS_VECTOR_MAX_ENTRIES {
        vector := heard;
        left := true;
        return;
      }
      vector := heard + [own];
      if own == origNode {
        assert vector[..|vector| - 1] == heard;
        var hops := Outward();
        route := Some(hops);
      }
    }
  }

  /** A path heard link by link from the TargNode outward, turned round: a simple path from the OrigNode to the TargNode
      whose every hop is one of those links, travelled from hearer to sender. */
  lemma ReversalIsAPath(targNode: Address, origNode: Address, heard: Path, links: set<(Address, Address)>)
    requires PathTo(targNode, origNode, heard + [origNode], links)
    ensures var p := [origNode] + Reversed(heard) + [targNode];
            && |p| == |heard| + 2 && RepeatFree(p)
            && forall i :: 0 < i < |p| ==> (p[i], p[i - 1]) in links
  {
    var p, q := [origNode] + Reversed(heard) + [targNode], [targNode] + (heard + [origNode]);
    ReversedLength(heard);
    forall i | 0 <= i < |p| ensures p[i] == q[|q| - 1 - i] {
      if 0 < i <= |heard| {
        ReversedAt(heard, i - 1);
      }
    }
    forall i | 0 < i < |p| ensures (p[i], p[i - 1]) in links {
      assert (q[|q| - 1 - i], q[|q| - i]) in links by {
        assert (q[(|q| - i) - 1], q[|q| - i]) in links;
      }
    }
  }

  /** So the route an OrigNode takes from any copy its RREP-Instance's flood can bring it is such a path. */
  lemma AsymmetricRouteIsAPath(targNode: Address, origNode: Address, c: Copy, links: set<(Address, Address)>)
    requires SoundCopy(targNode, c, links) && origNode != targNode && origNode !in c.vector
    ensures var p := [origNode] + (Reversed(c.vector) + [targNode]);
            RepeatFree(p) && forall i :: 0 < i < |p| ==> (p[i], p[i - 1]) in links + {(c.sender, origNode)}
  {
    Extends(targNode, c, origNode, links);
    ReversalIsAPath(targNode, origNode, c.vector, links + {(c.sender, origNode)});
    assert [origNode] + (Reversed(c.vector) + [targNode]) == [origNode] + Reversed(c.vector) + [targNode];
  }

  // ---------------------------------------------------------------- the symmetric RREP

  /** An RREP as it travels unchanged from TargNode to OrigNode. */
  datatype Rrep = Rrep(targNode: Address, origNode: Address, vector: Path)

  datatype Action = Dropped | Relayed(next: Address) | Stored(route: Path)

  /** A member of the RREQ-Instance, with the TargNodes whose RREP it has handled. */
  datatype Relay = Relay(member: bool, handled: set<Address>)

  function IndexOf(p: Path, x: Address): nat {
    if p == [] then 0 else if p[0] == x then 0 else 1 + IndexOf(p[1..], x)
  }

  function ActionAt(own: Address, r: Relay, m: Rrep): Action {
    if !r.member || m.targNode in r.handled then Dropped
    else if own == m.origNode then if m.vector == [] then Dropped else Stored(m.vector)
    else if own !in m.vector then Dropped
    else
      MemberIndex(m.vector, own);
      var i := IndexOf(m.vector, own);
      Relayed(if i >= 1 then m.vector[i - 1] else m.origNode)
  }

  function Handled(own: Address, r: Relay, m: Rrep): Relay {
    if ActionAt(own, r, m).Dropped? then r else r.(handled := r.handled + {m.targNode})
  }

  lemma {:induction false} MemberIndex(p: Path, x: Address)
    requires x in p
    ensures IndexOf(p, x) < |p| && p[IndexOf(p, x)] == x
  {
    if p[0] != x {
      assert x in p[1..];
      MemberIndex(p[1..], x);
    }
  }

  lemma {:induction false} FirstIndexIs(p: Path, k: nat)
    requires k < |p| && RepeatFree(p)
    ensures IndexOf(p, p[k]) == k
  {
    if k > 0 {
      assert RepeatFree(p[1..]) by {
        assert forall i :: 0 <= i < |p[1..]| ==> p[1..][i] == p[i + 1];
      }
      FirstIndexIs(p[1..], k - 1);
    }
  }

  class AodvRelay {
    const own: Address
    var member: bool
    var rrepHandled: set<Address>
    var route: Option<Path>

    constructor (own: Address)
      ensures this.own == own && member && rrepHandled == {} && route == None
    {
      this.own := own;
      member, rrepHandled, route := true, {}, None;
    }

    function State(): Relay
      reads this
    {
      Relay(member, rrepHandled)
    }

    /** An RREP-DIO with H=0 sent to this router alone. */
    method HandleAodvRrep(m: Rrep) returns (next: Option<Address>)
      modifies this
      ensures var a := ActionAt(own, old(State()), m);
              && State() == Handled(own, old(State()), m)
              && next == (if a.Relayed? then Some(a.next) else None)
              && route == (if a.Stored? then Some(a.route) else old(route))
    {
      next := None;
      if !member || m.targNode in rrepHandled {
        return;
      }
      if own == m.origNode {
        if m.vector == [] {
          return;
        }
        route := Some(m.vector);
        rrepHandled := rrepHandled + {m.targNode};
        return;
      }
      var ownIndex := 0;
      while ownIndex < |m.vector| && m.vector[ownIndex] != own
        invariant ownIndex <= |m.vector| && own !in m.vector[..ownIndex]
        invariant IndexOf(m.vector, own) == ownIndex + IndexOf(m.vector[ownIndex..], own)
      {
        assert m.vector[ownIndex..][1..] == m.vector[ownIndex + 1..];
        ownIndex := ownIndex + 1;
      }
      if ownIndex == |m.vector| {
        assert m.vector[..ownIndex] == m.vector;
        return;
      }
      rrepHandled := rrepHandled + {m.targNode};
      next := Some(if ownIndex >= 1 then m.vector[ownIndex - 1] else m.origNode);
    }
  }

  /** The routers an RREP passes through, from the first to receive it, and what it leaves with the last. */
  datatype Journey = Journey(stops: Path, last: Action)

  function Travel(net: map<Address, Relay>, m: Rrep, at: Address, fuel: nat): Journey
    decreases fuel
  {
    if at !in net then Journey([at], Dropped)
    else
      var a := ActionAt(at, net[at], m);
      if a.Relayed? && fuel > 0 then
        var on := Travel(net[at := Handled(at, net[at], m)], m, a.next, fuel - 1);
        Journey([at] + on.stops, on.last)
      else Journey([at], a)
  }

  /** The first receiver: the entry before the TargNode's own, or the OrigNode when it is the only entry. */
  function FirstReceiver(m: Rrep): Address
    requires m.vector != []
  {
    if |m.vector| >= 2 then m.vector[|m.vector| - 2] else m.origNode
  }

  predicate Awaiting(net: map<Address, Relay>, m: Rrep, x: Address) {
    x in net && net[x].member && m.targNode !in net[x].handled
  }

  /** The stops from entry i of `p` back to the first. */
  function Back(p: Path, i: nat): Path
    requires i < |p|
  {
    Reversed(p[..i + 1])
  }

  lemma BackFirst(p: Path, i: nat)
    requires i < |p|
    ensures Back(p, i) == [p[i]] + if i == 0 then [] else Back(p, i - 1)
  {
    ReversedAppend(p[..i], p[i]);
    assert p[..i + 1] == p[..i] + [p[i]];
    assert i == 0 ==> Reversed(p[..i]) == [];
  }

  /** Each router of the vector passes the RREP to the entry before its own. */
  lemma PassesBack(net: map<Address, Relay>, m: Rrep, i: nat)
    requires 0 < i <= |m.vector| && RepeatFree([m.origNode] + m.vector)
    requires Awaiting(net, m, ([m.origNode] + m.vector)[i])
    ensures var p := [m.origNode] + m.vector;
            ActionAt(p[i], net[p[i]], m) == Relayed(p[i - 1])
  {
    var p := [m.origNode] + m.vector;
    assert forall k :: 0 <= k < |m.vector| ==> m.vector[k] == p[k + 1];
    assert RepeatFree(m.vector) && m.vector[i - 1] in m.vector && p[i] != p[0];
    FirstIndexIs(m.vector, i - 1);
  }

  lemma {:induction false} TravelsBack(net: map<Address, Relay>, m: Rrep, i: nat)
    requires i <= |m.vector| && m.vector != [] && RepeatFree([m.origNode] + m.vector)
    requires forall j :: 0 <= j <= i ==> Awaiting(net, m, ([m.origNode] + m.vector)[j])
    ensures Travel(net, m, ([m.origNode] + m.vector)[i], i)
         == Journey(Back([m.origNode] + m.vector, i), Stored(m.vector))
  {
    var p := [m.origNode] + m.vector;
    BackFirst(p, i);
    assert Awaiting(net, m, p[i]);
    if i > 0 {
      PassesBack(net, m, i);
      hide Back, ActionAt;
      var net' := net[p[i] := Handled(p[i], net[p[i]], m)];
      forall j | 0 <= j <= i - 1 ensures Awaiting(net', m, p[j]) {
        assert p[j] != p[i] && Awaiting(net, m, p[j]);
      }
      TravelsBack(net', m, i - 1);
    }
  }

  /** The RREP of a symmetric route retraces the vector to the OrigNode, through each intermediate router once, and the
      OrigNode stores the vector: a simple path from it to the TargNode over links that delivered. */
  lemma RrepRetracesToOrigin(net: map<Address, Relay>, m: Rrep, links: set<(Address, Address)>)
    requires PathTo(m.origNode, m.targNode, m.vector, links)
    requires forall x :: x in [m.origNode] + m.vector[..|m.vector| - 1] ==> Awaiting(net, m, x)
    ensures var relays := |m.vector| - 1;
            Travel(net, m, FirstReceiver(m), relays)
            == Journey(Reversed(m.vector[..relays]) + [m.origNode], Stored(m.vector))
  {
    var p, n := [m.origNode] + m.vector, |m.vector|;
    var front := [m.origNode] + m.vector[..n - 1];
    assert p[..n] == front;
    forall j | 0 <= j <= n - 1 ensures Awaiting(net, m, p[j]) {
      assert p[j] == front[j] && front[j] in front;
    }
    TravelsBack(net, m, n - 1);
    assert FirstReceiver(m) == p[n - 1];
    assert front[1..] == m.vector[..n - 1];
  }
}
