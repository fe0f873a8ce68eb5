/** From the parents reported to the root to the packet delivered: the chain the root finds, written as a route of
    link-local hops, is one a packet can be sent down. */
module RootRoutes {
  import opened Lollipop
  import opened Octets
  import opened Paths
  import opened RplTypes
  import opened SourceRoute
  import opened SourceRouteDelivery
  import opened SourceRoutingHeader

  /** The address a router has on its links: its interface identifier under the link-local prefix. */
  function LinkLocalOf(global: Ip): Ip {
    LINK_LOCAL_PREFIX + global[8..]
  }

  lemma LinkLocalOfIs(a: Ip, b: Ip)
    ensures IsLinkLocal(LinkLocalOf(a))
    ensures LinkLocalOf(a) == LinkLocalOf(b) <==> a[8..] == b[8..]
  {
    assert LinkLocalOf(a)[..8] == LINK_LOCAL_PREFIX;
    assert LinkLocalOf(a)[8..] == a[8..] && LinkLocalOf(b)[8..] == b[8..];
  }

  /** The chain in octets, its nodes named by `ip`, as the route attached to a packet. */
  function RouteAlong(nodes: seq<Address>, ip: Address -> Ip): (hops: seq<Ip>)
    ensures |hops| == |nodes|
  {
    seq(|nodes|, i requires 0 <= i < |nodes| => LinkLocalOf(ip(nodes[i])))
  }

  /** Each node answers to its global address and to the link-local one with the same identifier. */
  function RoutersAlong(nodes: seq<Address>, ip: Address -> Ip): (routers: seq<set<Ip>>)
    ensures |routers| == |nodes|
  {
    seq(|nodes|, i requires 0 <= i < |nodes| => {LinkLocalOf(ip(nodes[i])), ip(nodes[i])})
  }

  ghost predicate WellNamed(nodes: seq<Address>, ip: Address -> Ip) {
    && (forall i :: 0 <= i < |nodes| ==> !IsLinkLocal(ip(nodes[i])) && !IsMulticast(ip(nodes[i])))
    && forall i, j :: 0 <= i < j < |nodes| && nodes[i] != nodes[j] ==> ip(nodes[i])[8..] != ip(nodes[j])[8..]
  }

  /** Along nodes all different the route is one the root may send down, and each router stands at one stop of it. */
  lemma EachAtOneStop(nodes: seq<Address>, ip: Address -> Ip)
    requires nodes != [] && RepeatFree(nodes) && WellNamed(nodes, ip)
    ensures Stationed(Stops(RouteAlong(nodes, ip), ip(nodes[|nodes| - 1])), RoutersAlong(nodes, ip))
    ensures forall a: nat, b: nat, c: nat :: !Visits(RoutersAlong(nodes, ip), a, b, c)
    ensures Attaches(RouteAlong(nodes, ip), ip(nodes[|nodes| - 1])) ==>
              RootRoute(RouteAlong(nodes, ip), ip(nodes[|nodes| - 1]))
  {
    var stops, routers := Stops(RouteAlong(nodes, ip), ip(nodes[|nodes| - 1])), RoutersAlong(nodes, ip);
    forall k, j | 0 <= k < |stops| && 0 <= j < |stops|
      ensures stops[j] in routers[j] && (stops[j] in routers[k] <==> j == k)
    {
      LinkLocalOfIs(ip(nodes[j]), ip(nodes[k]));
      LinkLocalOfIs(ip(nodes[k]), ip(nodes[j]));
    }
  }

  /** Of every destination whose reported parents lead to the root over more than one hop: if what the root finds fits
      one header, a packet sent down it reaches the destination, over octets decoded and encoded anew at each router,
      if and only if its Hop Limit is at least the length of the chain. */
  lemma FoundRouteDelivers(topology: Topology, root: Address, destination: Address, now: Time, chain: seq<Address>,
                           ip: Address -> Ip, nextHeader: Byte, payload: Bytes, hopLimit: Byte)
    requires LeadsToRoot(topology, root, destination, now, chain) && WellNamed(chain, ip)
    requires Attaches(RouteAlong(Reversed(chain), ip), ip(destination))
    ensures |Reversed(chain)| == |chain|
    ensures var hops, routers, n := RouteAlong(Reversed(chain), ip), RoutersAlong(Reversed(chain), ip), |chain| - 1;
            var last := Travel(Departing(hops, ip(destination), nextHeader, payload, hopLimit), routers, n);
            && (last.Some? <==> hopLimit >= |chain|)
            && (last.Some? ==> |last.value.octets| >= 8
                               && Relay(last.value, routers[n]) == Delivered(payload, ip(destination)))
  {
    hide Travel, Relay, Departing;
    var nodes := Reversed(chain);
    RouteIsRepeatFree(topology, root, destination, now, chain);
    ReversedLength(chain);
    forall i | 0 <= i < |nodes| ensures nodes[i] == chain[|chain| - 1 - i] { ReversedAt(chain, i); }
    assert nodes[|nodes| - 1] == destination;
    var hops, routers := RouteAlong(nodes, ip), RoutersAlong(nodes, ip);
    EachAtOneStop(nodes, ip);
    TwoVisitsPass(Stops(hops, ip(destination)), routers);
    DeliveredExactly(hops, ip(destination), nextHeader, payload, routers, hopLimit);
  }
}
