/** A source-routed packet on its way from the root to its destination, as octets on the wire at every hop. */
module SourceRouteDelivery {
  import opened Lollipop
  import opened Octets
  import opened RplTypes
  import opened SourceRoutingHeader

  const ROUTING_TYPE_SRH: Byte := 3

  /** What is on the wire between two hops: the octets of the routing header and all that follows it. */
  datatype Wire = Wire(octets: Bytes, destination: Ip, hopLimit: Byte)

  datatype Arrival = Delivered(payload: Bytes, destination: Ip) | Lost(reason: DropReason) | Onward(wire: Wire)

  /** One router: decode, process, encode again. */
  ghost function Relay(w: Wire, local: set<Ip>): Arrival
    requires |w.octets| >= 8
  {
    var (h, span) := Decode(w.octets);
    var payload := w.octets[span..];
    match Judge(h, w.destination, w.hopLimit, local)
    case Deliver => Delivered(payload, w.destination)
    case Drop(reason) => Lost(reason)
    case Forward =>
      var (h', destination) := Exchange(h, w.destination);
      if Fits(h') then Onward(Wire(Encode(h') + payload, destination, w.hopLimit - 1)) else Lost(MalformedHeader)
  }

  /** The header the root attaches for a route of several hops: the first hop becomes the destination, the last
      entry is the real destination's global address; nothing is attached to a route that does not fit. */
  function Attach(hops: seq<Ip>, destination: Ip, nextHeader: Byte): (h: Header)
    requires |hops| > 1
  {
    Header(nextHeader, ROUTING_TYPE_SRH, (|hops| - 1) % 256, hops[1..|hops| - 1] + [destination])
  }

  predicate Attaches(hops: seq<Ip>, destination: Ip) {
    |hops| > 1 && |hops| - 1 <= 255 && Fits(Attach(hops, destination, 0))
  }

  /** Routes as the root computes them: link-local next hops, and a destination that is neither. */
  ghost predicate RootRoute(hops: seq<Ip>, destination: Ip) {
    && Attaches(hops, destination)
    && (forall i :: 0 <= i < |hops| ==> IsLinkLocal(hops[i]))
    && !IsMulticast(destination)
  }

  function Stops(hops: seq<Ip>, destination: Ip): seq<Ip>
    requires hops != []
  {
    hops[..|hops| - 1] + [destination]
  }

  /** Two of the stops at the router with these addresses, another router's in between, of the stops the header
      lists besides the next: the router is at stop k, which the packet's destination names, and k + 1 comes next. */
  ghost predicate LoopsAt(stops: seq<Ip>, k: nat, local: set<Ip>) {
    exists i: nat, m: nat, j: nat :: Straddles(stops, local, i, m, j) && k !in {i, m, j} && k + 1 !in {i, m, j}
  }

  /** What no router before stop n objects to. */
  ghost predicate ClearUntil(stops: seq<Ip>, routers: seq<set<Ip>>, n: nat) {
    n <= |routers| && forall k :: 0 <= k < n ==> !LoopsAt(stops, k, routers[k])
  }

  /** The header as it stands on arrival at stop k: the stops passed take the places of those ahead. */
  function HeaderAt(stops: seq<Ip>, nextHeader: Byte, k: nat): Header
    requires k < |stops| <= 256
  {
    Header(nextHeader, ROUTING_TYPE_SRH, |stops| - 1 - k, stops[..k] + stops[k + 1..])
  }

  lemma HeadersFit(hops: seq<Ip>, destination: Ip, nextHeader: Byte, k: nat)
    requires RootRoute(hops, destination) && k < |hops|
    ensures Fits(HeaderAt(Stops(hops, destination), nextHeader, k))
    ensures Size(HeaderAt(Stops(hops, destination), nextHeader, k).addresses)
            <= Size(Attach(hops, destination, nextHeader).addresses)
  {
    var stops := Stops(hops, destination);
    var addresses := HeaderAt(stops, nextHeader, k).addresses;
    var first := Attach(hops, destination, nextHeader).addresses;
    assert |addresses| == |first| == |hops| - 1;
    forall i | 0 <= i < |addresses| - 1
      ensures IsLinkLocal(addresses[i]) && IsLinkLocal(first[i])
    {
      assert addresses[i] == if i < k then hops[i] else hops[i + 1];
      assert first[i] == hops[i + 1];
    }
    if |hops| > 2 {
      assert CmprI(addresses) == 8 && CmprI(first) == 8;
    }
    if !IsLinkLocal(destination) {
      assert first[|first| - 1] == destination;
      assert CmprE(first) == 0;
    } else {
      assert addresses[|addresses| - 1] in {hops[|hops| - 2], destination};
    }
  }

  lemma LinkLocalIsUnicast(a: Ip)
    requires IsLinkLocal(a)
    ensures !IsMulticast(a)
  {
    assert a[0] == a[..8][0];
  }

  /** The stop that entry x of the list is, at stop k. */
  function Stop(k: nat, x: nat): nat {
    if x < k then x else x + 1
  }

  function Entry(k: nat, stop: nat): nat
    requires stop != k
  {
    if stop < k then stop else stop - 1
  }

  lemma EntryIsStop(stops: seq<Ip>, nextHeader: Byte, k: nat, x: nat)
    requires k < |stops| <= 256 && x < |stops| - 1
    ensures HeaderAt(stops, nextHeader, k).addresses[x] == stops[Stop(k, x)]
  {
  }

  lemma ListedLoop(stops: seq<Ip>, nextHeader: Byte, local: set<Ip>, k: nat, i: nat, m: nat, j: nat)
    requires k < |stops| <= 256 && |HeaderAt(stops, nextHeader, k).addresses| == |stops| - 1
    ensures Straddles(HeaderAt(stops, nextHeader, k).addresses, local, i, m, j)
       <==> Straddles(stops, local, Stop(k, i), Stop(k, m), Stop(k, j))
  {
    hide HeaderAt;
    if i < m < j < |stops| - 1 {
      EntryIsStop(stops, nextHeader, k, i);
      EntryIsStop(stops, nextHeader, k, m);
      EntryIsStop(stops, nextHeader, k, j);
    }
  }

  lemma LoopIsSeen(stops: seq<Ip>, nextHeader: Byte, local: set<Ip>, k: nat)
    requires k < |stops| <= 256
    ensures LoopsBack(HeaderAt(stops, nextHeader, k).addresses, k, local) <==> LoopsAt(stops, k, local)
  {
    var addresses := HeaderAt(stops, nextHeader, k).addresses;
    assert |addresses| == |stops| - 1;
    hide HeaderAt, Straddles;
    if LoopsBack(addresses, k, local) {
      var i: nat, m: nat, j: nat :| Straddles(addresses, local, i, m, j) && k !in {i, m, j};
      ListedLoop(stops, nextHeader, local, k, i, m, j);
      assert Straddles(stops, local, Stop(k, i), Stop(k, m), Stop(k, j));
    }
    if LoopsAt(stops, k, local) {
      var i: nat, m: nat, j: nat :| Straddles(stops, local, i, m, j) && k !in {i, m, j} && k + 1 !in {i, m, j};
      ListedLoop(stops, nextHeader, local, k, Entry(k, i), Entry(k, m), Entry(k, j));
      assert Straddles(addresses, local, Entry(k, i), Entry(k, m), Entry(k, j));
    }
  }

  /** Router k takes the list for a loop exactly as `LoopsAt` says and never for malformed, and its exchange advances
      the stops by one. */
  lemma StopIsProcessed(hops: seq<Ip>, destination: Ip, nextHeader: Byte, local: set<Ip>, hopLimit: Byte, k: nat)
    requires RootRoute(hops, destination) && k < |hops| - 1
    ensures var stops := Stops(hops, destination);
            var h := HeaderAt(stops, nextHeader, k);
            && Judge(h, stops[k], hopLimit, local)
               == (if LoopsAt(stops, k, local) then Drop(RoutingLoop)
                   else if hopLimit <= 1 then Drop(HopLimitExceeded)
                   else Forward)
            && Exchange(h, stops[k]) == (HeaderAt(stops, nextHeader, k + 1), stops[k + 1])
  {
    hide LoopsAt, LoopsBack;
    var stops := Stops(hops, destination);
    var h, h' := HeaderAt(stops, nextHeader, k), HeaderAt(stops, nextHeader, k + 1);
    assert Counted(h.addresses) == h.addresses && |h.addresses| - h.segmentsLeft == k && h.addresses[k] == stops[k + 1];
    forall i | 0 <= i < |stops| ensures !IsMulticast(stops[i]) {
      if i < |hops| - 1 { LinkLocalIsUnicast(hops[i]); }
    }
    LoopIsSeen(stops, nextHeader, local, k);
    assert h.addresses[k := stops[k]] == h'.addresses;
  }

  function WireAt(stops: seq<Ip>, nextHeader: Byte, payload: Bytes, hopLimit: Byte, k: nat): Wire
    requires k < |stops| <= 256 && Fits(HeaderAt(stops, nextHeader, k))
  {
    Wire(Encode(HeaderAt(stops, nextHeader, k)) + payload, stops[k], hopLimit)
  }

  /** Decoding what a router receives gives the header as encoded and leaves the payload. */
  lemma WireDecodes(h: Header, payload: Bytes)
    requires Fits(h)
    ensures var octets := Encode(h) + payload;
            |octets| >= 8 && Decode(octets).0 == h && Decode(octets).1 <= |octets|
            && octets[Decode(octets).1..] == payload
  {
    RoundTrip(h, payload);
    SizeIsWhole(h.addresses);
    assert (Encode(h) + payload)[|Encode(h)|..] == payload;
  }

  /** One hop, with Hop Limit to spare and no loop seen, takes the packet from stop k to stop k + 1. */
  lemma OneHop(hops: seq<Ip>, destination: Ip, nextHeader: Byte, payload: Bytes, local: set<Ip>, hopLimit: Byte, k: nat)
    requires RootRoute(hops, destination)
    requires k < |hops| - 1 && Fits(HeaderAt(Stops(hops, destination), nextHeader, k))
    ensures Fits(HeaderAt(Stops(hops, destination), nextHeader, k + 1))
    ensures var w := WireAt(Stops(hops, destination), nextHeader, payload, hopLimit, k);
            && |w.octets| >= 8
            && Relay(w, local) ==
               if LoopsAt(Stops(hops, destination), k, local) then Lost(RoutingLoop)
               else if hopLimit <= 1 then Lost(HopLimitExceeded)
               else Onward(WireAt(Stops(hops, destination), nextHeader, payload, hopLimit - 1, k + 1))
  {
    WireDecodes(HeaderAt(Stops(hops, destination), nextHeader, k), payload);
    StopIsProcessed(hops, destination, nextHeader, local, hopLimit, k);
    HeadersFit(hops, destination, nextHeader, k + 1);
  }

  /** The packet after `k` relays, or None if it was delivered or lost before. */
  ghost function Travel(w: Wire, routers: seq<set<Ip>>, k: nat): Option<Wire>
    requires k <= |routers|
  {
    if k == 0 then Some(w)
    else
      var before := Travel(w, routers, k - 1);
      if before.None? || |before.value.octets| < 8 then None
      else match Relay(before.value, routers[k - 1])
        case Onward(next) => Some(next)
        case _ => None
  }

  function Departing(hops: seq<Ip>, destination: Ip, nextHeader: Byte, payload: Bytes, hopLimit: Byte): Wire
    requires Attaches(hops, destination)
  {
    Wire(Encode(Attach(hops, destination, nextHeader)) + payload, hops[0], hopLimit)
  }

  /** A packet standing at stop k - 1 moves on to stop k, or is gone there as a loop or for want of Hop Limit. */
  lemma OneMoreRelay(hops: seq<Ip>, destination: Ip, nextHeader: Byte, payload: Bytes, routers: seq<set<Ip>>,
                     hopLimit: Byte, k: nat, w: Wire)
    requires RootRoute(hops, destination) && |routers| == |hops| && 0 < k < |hops|
    requires hopLimit >= k - 1 && Fits(HeaderAt(Stops(hops, destination), nextHeader, k - 1))
    requires Travel(w, routers, k - 1)
             == Some(WireAt(Stops(hops, destination), nextHeader, payload, hopLimit - (k - 1), k - 1))
    ensures Fits(HeaderAt(Stops(hops, destination), nextHeader, k))
    ensures if hopLimit <= k || LoopsAt(Stops(hops, destination), k - 1, routers[k - 1])
            then Travel(w, routers, k) == None
            else Travel(w, routers, k) == Some(WireAt(Stops(hops, destination), nextHeader, payload, hopLimit - k, k))
  {
    hide Relay, LoopsAt;
    OneHop(hops, destination, nextHeader, payload, routers[k - 1], hopLimit - (k - 1), k - 1);
  }

  /** With Hop Limit to spare and no loop seen, after k relays the packet stands at stop k, the stops passed recorded
      in order before those ahead. */
  lemma {:induction false} StandsAtStop(hops: seq<Ip>, destination: Ip, nextHeader: Byte, payload: Bytes,
                                        routers: seq<set<Ip>>, hopLimit: Byte, k: nat, w: Wire)
    requires RootRoute(hops, destination) && |routers| == |hops| && k < |hops|
    requires ClearUntil(Stops(hops, destination), routers, k)
    requires w == Departing(hops, destination, nextHeader, payload, hopLimit) && (k == 0 || hopLimit > k)
    ensures Fits(HeaderAt(Stops(hops, destination), nextHeader, k))
    ensures Travel(w, routers, k) == Some(WireAt(Stops(hops, destination), nextHeader, payload, hopLimit - k, k))
  {
    hide Relay, LoopsAt;
    if k == 0 {
      LeavesAsAttached(hops, destination, nextHeader, payload, hopLimit);
    } else {
      StandsAtStop(hops, destination, nextHeader, payload, routers, hopLimit, k - 1, w);
      OneMoreRelay(hops, destination, nextHeader, payload, routers, hopLimit, k, w);
    }
  }

  lemma StaysGone(w: Wire, routers: seq<set<Ip>>, k: nat)
    requires 0 < k <= |routers| && Travel(w, routers, k - 1) == None
    ensures Travel(w, routers, k) == None
  {
  }

  /** Otherwise the packet is gone by then. */
  lemma {:induction false} GoneByStop(hops: seq<Ip>, destination: Ip, nextHeader: Byte, payload: Bytes,
                                      routers: seq<set<Ip>>, hopLimit: Byte, k: nat, w: Wire)
    requires RootRoute(hops, destination) && |routers| == |hops| && 0 < k < |hops|
    requires w == Departing(hops, destination, nextHeader, payload, hopLimit)
    requires hopLimit <= k || !ClearUntil(Stops(hops, destination), routers, k)
    ensures Travel(w, routers, k) == None
  {
    hide Relay, LoopsAt, Travel, Departing, Fits;
    var stops := Stops(hops, destination);
    if k > 1 && (hopLimit <= k - 1 || !ClearUntil(stops, routers, k - 1)) {
      GoneByStop(hops, destination, nextHeader, payload, routers, hopLimit, k - 1, w);
      StaysGone(w, routers, k);
    } else {
      StandsAtStop(hops, destination, nextHeader, payload, routers, hopLimit, k - 1, w);
      OneMoreRelay(hops, destination, nextHeader, payload, routers, hopLimit, k, w);
    }
  }

  lemma LeavesAsAttached(hops: seq<Ip>, destination: Ip, nextHeader: Byte, payload: Bytes, hopLimit: Byte)
    requires RootRoute(hops, destination)
    ensures Fits(HeaderAt(Stops(hops, destination), nextHeader, 0))
    ensures Departing(hops, destination, nextHeader, payload, hopLimit)
            == WireAt(Stops(hops, destination), nextHeader, payload, hopLimit, 0)
  {
    var stops := Stops(hops, destination);
    HeadersFit(hops, destination, nextHeader, 0);
    assert stops[..0] + stops[1..] == hops[1..|hops| - 1] + [destination];
  }

  /** A packet the root sends down a route of n hops is relayed n - 1 times and delivered, payload intact, under the
      real destination's own address, if and only if its Hop Limit is at least n and no router on the way finds itself
      listed on both sides of another; otherwise it is lost before. The header never grows beyond what the root
      attached. */
  lemma DeliveredExactly(hops: seq<Ip>, destination: Ip, nextHeader: Byte, payload: Bytes, routers: seq<set<Ip>>,
                         hopLimit: Byte)
    requires RootRoute(hops, destination) && |routers| == |hops|
    ensures var n := |hops| - 1;
            var last := Travel(Departing(hops, destination, nextHeader, payload, hopLimit), routers, n);
            && (last.Some? <==> hopLimit >= |hops| && ClearUntil(Stops(hops, destination), routers, n))
            && (last.Some? ==> |last.value.octets| >= 8
                               && Relay(last.value, routers[n]) == Delivered(payload, destination)
                               && last.value.hopLimit == hopLimit - n)
  {
    hide LoopsAt, ClearUntil;
    var stops, n := Stops(hops, destination), |hops| - 1;
    var w := Departing(hops, destination, nextHeader, payload, hopLimit);
    if hopLimit <= n || !ClearUntil(stops, routers, n) {
      GoneByStop(hops, destination, nextHeader, payload, routers, hopLimit, n, w);
    } else {
      StandsAtStop(hops, destination, nextHeader, payload, routers, hopLimit, n, w);
      WireDecodes(HeaderAt(stops, nextHeader, n), payload);
    }
  }

  // ---------------------------------------------------------------- any packet

  /** Some router other than this one's stands between two of its addresses in the list, the current entry aside. */
  ghost predicate ComesBack(addresses: seq<Ip>, current: nat, local: set<Ip>) {
    exists i: nat, m: nat, j: nat :: ListedTwice(addresses, current, local, i, m, j)
  }

  ghost predicate ListedTwice(addresses: seq<Ip>, current: nat, local: set<Ip>, i: nat, m: nat, j: nat) {
    && i < m < j < |addresses| && i != current && m != current && j != current
    && addresses[i] in local && addresses[m] !in local && addresses[j] in local
  }

  /** Whatever the header: delivered with no segments left; malformed if more are left than addresses, or the address
      now or next would be multicast; then a loop; then the Hop Limit. */
  lemma JudgedExactly(h: Header, destination: Ip, hopLimit: Byte, local: set<Ip>)
    requires |h.addresses| < 256
    ensures var n := |h.addresses|;
            Judge(h, destination, hopLimit, local)
            == if h.segmentsLeft == 0 then Deliver
               else if h.segmentsLeft > n || destination[0] == 255 || h.addresses[n - h.segmentsLeft][0] == 255 then
                 Drop(MalformedHeader)
               else if ComesBack(h.addresses, n - h.segmentsLeft, local) then Drop(RoutingLoop)
               else if hopLimit <= 1 then Drop(HopLimitExceeded) else Forward
  {
    assert Counted(h.addresses) == h.addresses;
    if 0 < h.segmentsLeft <= |h.addresses| {
      SameLoop(h.addresses, |h.addresses| - h.segmentsLeft, local);
    }
  }

  lemma SameLoop(addresses: seq<Ip>, current: nat, local: set<Ip>)
    ensures LoopsBack(addresses, current, local) <==> ComesBack(addresses, current, local)
  {
    if LoopsBack(addresses, current, local) {
      var i: nat, m: nat, j: nat :| Straddles(addresses, local, i, m, j) && current !in {i, m, j};
      assert ListedTwice(addresses, current, local, i, m, j);
    }
    if ComesBack(addresses, current, local) {
      var i: nat, m: nat, j: nat :| ListedTwice(addresses, current, local, i, m, j);
      assert Straddles(addresses, local, i, m, j);
    }
  }

  function Read(w: Wire): Header
    requires |w.octets| >= 8
  {
    Decode(w.octets).0
  }

  function Payload(w: Wire): Bytes
    requires |w.octets| >= 8
  {
    w.octets[Decode(w.octets).1..]
  }

  /** Where a packet is after `k` relays of those it set out from: that many segments and hops fewer to go, no multicast
      destination, everything else as it was, and between the list and the destination the same addresses. */
  ghost predicate Advanced(w: Wire, w': Wire, k: nat) {
    && |w.octets| >= 8 && |w'.octets| >= 8
    && Read(w').segmentsLeft == Read(w).segmentsLeft - k && w'.hopLimit == w.hopLimit - k
    && Read(w').nextHeader == Read(w).nextHeader && Read(w').typeRouting == Read(w).typeRouting
    && Payload(w') == Payload(w)
    && (k > 0 ==> w'.hopLimit > 0 && !IsMulticast(w.destination) && !IsMulticast(w'.destination))
    && multiset(Read(w').addresses) + multiset{w'.destination} == multiset(Read(w).addresses) + multiset{w.destination}
  }

  lemma ExchangeConserves(h: Header, destination: Ip)
    requires 0 < h.segmentsLeft <= |Counted(h.addresses)|
    ensures var (h', next) := Exchange(h, destination);
            multiset(h'.addresses) + multiset{next} == multiset(h.addresses) + multiset{destination}
  {
  }

  lemma RelayAdvances(w: Wire, local: set<Ip>)
    requires |w.octets| >= 8 && Relay(w, local).Onward?
    ensures Advanced(w, Relay(w, local).wire, 1)
  {
    var h := Decode(w.octets).0;
    assert Judge(h, w.destination, w.hopLimit, local) == Forward;
    ExchangeConserves(h, w.destination);
    WireDecodes(Exchange(h, w.destination).0, Payload(w));
    hide Decode, Encode, LoopsBack, Fits;
  }

  /** Whatever octets a packet sets out with and whatever routers it passes, it is relayed no oftener than its segments
      and its Hop Limit allow, never to or by way of a multicast address, its payload intact and no address lost. */
  lemma {:induction false} AnyPacketAdvances(w: Wire, routers: seq<set<Ip>>, k: nat)
    requires k <= |routers| && |w.octets| >= 8
    ensures Travel(w, routers, k).Some? ==> Advanced(w, Travel(w, routers, k).value, k)
  {
    hide Relay;
    if k > 0 && Travel(w, routers, k).Some? {
      hide Advanced;
      RelayedFrom(w, routers, k);
      var before := Travel(w, routers, k - 1).value;
      AnyPacketAdvances(w, routers, k - 1);
      RelayAdvances(before, routers[k - 1]);
    }
  }

  lemma RelayedFrom(w: Wire, routers: seq<set<Ip>>, k: nat)
    requires 0 < k <= |routers|
    ensures Travel(w, routers, k).Some? ==>
              var before := Travel(w, routers, k - 1);
              && before.Some? && |before.value.octets| >= 8
              && Relay(before.value, routers[k - 1]) == Onward(Travel(w, routers, k).value)
    ensures k == 1 ==> Travel(w, routers, k - 1) == Some(w)
  {
    hide Relay;
  }

  // ---------------------------------------------------------------- routes that come back

  /** The router at each stop answers to it; two stops are one router's or share nothing. */
  ghost predicate Stationed(stops: seq<Ip>, routers: seq<set<Ip>>) {
    |routers| == |stops|
    && forall k, j :: 0 <= k < |stops| && 0 <= j < |stops| ==> (stops[j] in routers[k] <==> routers[j] == routers[k])
  }

  ghost predicate Visits(routers: seq<set<Ip>>, a: nat, b: nat, c: nat) {
    a < b < c < |routers| && routers[a] == routers[b] == routers[c]
  }

  ghost predicate VisitsApart(routers: seq<set<Ip>>, a: nat, b: nat, c: nat, m: nat) {
    Visits(routers, a, b, c) && b != a + 1 && b < m < c && routers[m] != routers[a]
  }

  /** A route that passes no router three times is nowhere taken for a loop, though it may pass one twice. */
  lemma TwoVisitsPass(stops: seq<Ip>, routers: seq<set<Ip>>)
    requires Stationed(stops, routers) && forall a: nat, b: nat, c: nat :: !Visits(routers, a, b, c)
    ensures ClearUntil(stops, routers, |stops|)
  {
    forall k | 0 <= k < |stops| ensures !LoopsAt(stops, k, routers[k]) {
      if LoopsAt(stops, k, routers[k]) {
        var i: nat, m: nat, j: nat :| Straddles(stops, routers[k], i, m, j) && k !in {i, m, j} && k + 1 !in {i, m, j};
        var a, b, c := if k < i then k else i, if k < i then i else if k < j then k else j, if k < j then j else k;
        assert Visits(routers, a, b, c);
        assert false;
      }
    }
  }

  /** One that passes a router three times, another between each two, is dropped at the first of them if not before. */
  lemma ThirdVisitIsSeen(stops: seq<Ip>, routers: seq<set<Ip>>, a: nat, b: nat, c: nat, m: nat)
    requires Stationed(stops, routers) && VisitsApart(routers, a, b, c, m)
    ensures LoopsAt(stops, a, routers[a])
  {
    assert Straddles(stops, routers[a], b, m, c);
  }

  /** What becomes of a stale route that comes back: with Hop Limit enough, a packet passes a router twice and is
      delivered; it is lost, whatever the Hop Limit, on the way to a third visit. */
  lemma ReturningRoute(hops: seq<Ip>, destination: Ip, nextHeader: Byte, payload: Bytes, routers: seq<set<Ip>>,
                       hopLimit: Byte)
    requires RootRoute(hops, destination) && Stationed(Stops(hops, destination), routers)
    ensures var last := Travel(Departing(hops, destination, nextHeader, payload, hopLimit), routers, |hops| - 1);
            && (hopLimit >= |hops| && (forall a: nat, b: nat, c: nat :: !Visits(routers, a, b, c)) ==> last.Some?)
            && ((exists a: nat, b: nat, c: nat, m: nat :: VisitsApart(routers, a, b, c, m)) ==> last.None?)
  {
    hide LoopsAt, Travel, Relay;
    var stops := Stops(hops, destination);
    DeliveredExactly(hops, destination, nextHeader, payload, routers, hopLimit);
    if forall a: nat, b: nat, c: nat :: !Visits(routers, a, b, c) {
      TwoVisitsPass(stops, routers);
    }
    if a: nat, b: nat, c: nat, m: nat :| VisitsApart(routers, a, b, c, m) {
      ThirdVisitIsSeen(stops, routers, a, b, c, m);
    }
  }
}
