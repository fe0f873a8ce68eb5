/** The root's downward route computation over the parents its nodes have reported. */
module SourceRoute {
  import opened RplTypes
  import opened DaoTable
  import opened Paths

  type Topology = map<Address, Entry>

  predicate Usable(topology: Topology, now: Time, a: Address) {
    a in topology && Alive(topology[a], now)
  }

  /** `chain` climbs from the destination over live reported parents and ends at the first node under the root. */
  ghost predicate Climbs(topology: Topology, root: Address, destination: Address, now: Time, chain: seq<Address>) {
    && chain != [] && chain[0] == destination
    && (forall i :: 0 <= i < |chain| ==> Usable(topology, now, chain[i]))
    && (forall i :: 0 < i < |chain| ==> topology[chain[i - 1]].via == chain[i] && chain[i] != root)
  }

  ghost predicate LeadsToRoot(topology: Topology, root: Address, destination: Address, now: Time, chain: seq<Address>) {
    Climbs(topology, root, destination, now, chain) && topology[chain[|chain| - 1]].via == root
  }

  /** The walk up is determined by its start. */
  lemma {:induction false} SameClimb(topology: Topology, root: Address, destination: Address, now: Time,
                                     a: seq<Address>, b: seq<Address>, i: nat)
    requires Climbs(topology, root, destination, now, a) && Climbs(topology, root, destination, now, b)
    requires i < |a| && i < |b|
    ensures a[i] == b[i]
  {
    if i > 0 {
      SameClimb(topology, root, destination, now, a, b, i - 1);
      assert topology[a[i - 1]].via == a[i] && topology[b[i - 1]].via == b[i];
    }
  }

  lemma LinkUp(topology: Topology, root: Address, destination: Address, now: Time, chain: seq<Address>, i: nat)
    requires Climbs(topology, root, destination, now, chain) && i + 1 < |chain|
    ensures topology[chain[i]].via == chain[i + 1] && chain[i + 1] != root
  {
    var next := chain[i + 1];
  }

  /** If a node recurs, so does everything above it. */
  lemma {:induction false} Recurs(topology: Topology, root: Address, destination: Address, now: Time,
                                  chain: seq<Address>, i: nat, j: nat, k: nat)
    requires Climbs(topology, root, destination, now, chain)
    requires i < j && j + k < |chain| && chain[i] == chain[j]
    ensures chain[i + k] == chain[j + k]
  {
    if k > 0 {
      Recurs(topology, root, destination, now, chain, i, j, k - 1);
      assert topology[chain[i + k - 1]].via == chain[i + k] && topology[chain[j + k - 1]].via == chain[j + k];
    }
  }

  /** A chain that reaches the root visits no node twice, so it is no longer than the topology is wide. */
  lemma RouteIsRepeatFree(topology: Topology, root: Address, destination: Address, now: Time, chain: seq<Address>)
    requires LeadsToRoot(topology, root, destination, now, chain)
    ensures RepeatFree(chain) && |chain| <= |topology|
  {
    forall i, j | 0 <= i < j < |chain|
      ensures chain[i] != chain[j]
    {
      if chain[i] == chain[j] {
        var k := |chain| - 1 - j;
        LinkUp(topology, root, destination, now, chain, i + k);
        Recurs(topology, root, destination, now, chain, i, j, k);
      }
    }
    FewDistinct(chain, topology.Keys);
    assert |topology.Keys| == |topology|;
  }

  lemma {:induction false} FewDistinct(chain: seq<Address>, nodes: set<Address>)
    requires RepeatFree(chain) && forall a :: a in chain ==> a in nodes
    ensures |chain| <= |nodes|
  {
    if chain != [] {
      forall a | a in chain[1..] ensures a in nodes - {chain[0]} {
        var i :| 0 <= i < |chain[1..]| && chain[1..][i] == a;
        assert chain[i + 1] == a;
      }
      FewDistinct(chain[1..], nodes - {chain[0]});
    }
  }

  /** Succeeds exactly when the live parent chain of the destination reaches the root, and then reports that chain,
      root side first. The bound on its steps, one more than the topology is wide, cuts off no route. */
  method ComputeSourceRoute(isRoot: bool, dodagId: Address, topology: Topology, destination: Address, now: Time)
    returns (found: bool, hops: seq<Address>)
    ensures found <==> isRoot && exists chain :: LeadsToRoot(topology, dodagId, destination, now, chain)
    ensures found ==>
              exists chain: seq<Address> ::
                LeadsToRoot(topology, dodagId, destination, now, chain) && hops == Reversed(chain)
    ensures !found ==> hops == []
  {
    hops := [];
    if !isRoot || destination !in topology {
      return false, [];
    }
    var current := destination;
    var chain: seq<Address> := [];
    var step := 0;
    while step <= |topology|
      invariant 0 <= step <= |topology| + 1 && |chain| == step
      invariant chain == [] ==> current == destination
      invariant chain != [] ==> Climbs(topology, dodagId, destination, now, chain)
                                && topology[chain[|chain| - 1]].via == current && current != dodagId
    {
      if current !in topology || !Alive(topology[current], now) {
        NoWayUp(topology, dodagId, destination, now, chain, current);
        return false, [];
      }
      chain := chain + [current];
      current := topology[current].via;
      if current == dodagId {
        assert LeadsToRoot(topology, dodagId, destination, now, chain);
        hops := Reverse(chain);
        return true, hops;
      }
      step := step + 1;
    }
    forall route | LeadsToRoot(topology, dodagId, destination, now, route)
      ensures false
    {
      RouteIsRepeatFree(topology, dodagId, destination, now, route);
      NotPastRoot(topology, dodagId, destination, now, chain, route);
    }
    return false, [];
  }

  lemma NoWayUp(topology: Topology, root: Address, destination: Address, now: Time, chain: seq<Address>,
                current: Address)
    requires chain == [] ==> current == destination
    requires chain != [] ==> Climbs(topology, root, destination, now, chain)
                             && topology[chain[|chain| - 1]].via == current && current != root
    requires !Usable(topology, now, current)
    ensures !exists route :: LeadsToRoot(topology, root, destination, now, route)
  {
    forall route | LeadsToRoot(topology, root, destination, now, route)
      ensures false
    {
      if chain != [] {
        NotPastRoot(topology, root, destination, now, chain, route);
        LinkUp(topology, root, destination, now, route, |chain| - 1);
        SameClimb(topology, root, destination, now, chain, route, |chain| - 1);
      }
    }
  }

  /** A climb that has not met the root is shorter than the one that leads there. */
  lemma NotPastRoot(topology: Topology, root: Address, destination: Address, now: Time,
                    climb: seq<Address>, route: seq<Address>)
    requires Climbs(topology, root, destination, now, climb)
    requires topology[climb[|climb| - 1]].via != root
    requires LeadsToRoot(topology, root, destination, now, route)
    ensures |climb| < |route|
  {
    if |route| <= |climb| {
      var last := |route| - 1;
      if |route| < |climb| {
        LinkUp(topology, root, destination, now, climb, last);
      }
      SameClimb(topology, root, destination, now, climb, route, last);
    }
  }

  method Reverse(s: seq<Address>) returns (r: seq<Address>)
    ensures r == Reversed(s)
  {
    r := [];
    var i := 0;
    while i < |s|
      invariant 0 <= i <= |s|
      invariant Reversed(s) == Reversed(s[i..]) + r
    {
      assert s[i..][1..] == s[i + 1..];
      r := [s[i]] + r;
      i := i + 1;
    }
  }

  /** There is at most one such chain, so what the root reports is the route and not merely a route. */
  lemma RouteIsUnique(topology: Topology, root: Address, destination: Address, now: Time,
                      a: seq<Address>, b: seq<Address>)
    requires LeadsToRoot(topology, root, destination, now, a) && LeadsToRoot(topology, root, destination, now, b)
    ensures a == b
  {
    NoLongerThan(topology, root, destination, now, a, b);
    NoLongerThan(topology, root, destination, now, b, a);
    forall i | 0 <= i < |a| ensures a[i] == b[i] {
      SameClimb(topology, root, destination, now, a, b, i);
    }
  }

  lemma NoLongerThan(topology: Topology, root: Address, destination: Address, now: Time,
                     a: seq<Address>, b: seq<Address>)
    requires LeadsToRoot(topology, root, destination, now, a) && LeadsToRoot(topology, root, destination, now, b)
    ensures |b| <= |a|
  {
    if |a| < |b| {
      LinkUp(topology, root, destination, now, b, |a| - 1);
      SameClimb(topology, root, destination, now, a, b, |a| - 1);
    }
  }
}
