/** What the rank equation means for the whole DODAG: in a snapshot where every parent entry shows the neighbour's
    current rank, preferred parents form a tree rooted at the DODAG root. */
module RankGraph {
  import opened RplTypes
  import opened ParentSelection

  /** The members of one DODAG, by address, without its root. */
  type Network = map<Address, Membership>

  /** The root advertises MinHopRankIncrease as its rank. */
  function CurrentRank(net: Network, root: Address, minHop: nat, a: Address): nat
    requires a == root || a in net
  {
    if a == root then minHop else net[a].rank
  }

  ghost predicate Consistent(net: Network, root: Address, minHop: nat) {
    && minHop > 0 && root != ANY && root !in net && ANY !in net
    && forall n :: n in net ==>
         && RankEquation(net[n]) && net[n].minHop == minHop
         && (net[n].preferred != ANY ==>
               && (net[n].preferred == root || net[n].preferred in net)
               && net[n].parents[net[n].preferred].rank == CurrentRank(net, root, minHop, net[n].preferred))
  }

  /** Following preferred parents `steps` times; the walk stops at a node that is no member. */
  function Ancestor(net: Network, n: Address, steps: nat): Address
    decreases steps
  {
    if steps == 0 || n !in net then n else Ancestor(net, net[n].preferred, steps - 1)
  }

  function OwnRank(net: Network, n: Address): Rank
    requires n in net && RankEquation(net[n]) && net[n].preferred != ANY
  {
    RankVia(net[n], net[n].parents[net[n].preferred])
  }

  /** One hop up costs at least MinHopRankIncrease, and a parent is the root or itself has a parent. */
  lemma HopUp(net: Network, root: Address, minHop: nat, n: Address)
    requires Consistent(net, root, minHop) && n in net && net[n].preferred != ANY
    ensures var p := net[n].preferred;
            && OwnRank(net, n) >= minHop + CurrentRank(net, root, minHop, p)
            && (p != root ==> net[p].preferred != ANY && net[p].rank == OwnRank(net, p))
  {
  }

  /** Every member with a parent reaches the root; with r the rank its parent gives it, in at most
      r / MinHopRankIncrease - 1 hops. */
  lemma {:induction false} ReachesRoot(net: Network, root: Address, minHop: nat, n: Address) returns (hops: nat)
    requires Consistent(net, root, minHop) && n in net && net[n].preferred != ANY
    ensures hops > 0 && Ancestor(net, n, hops) == root
    ensures (hops + 1) * minHop <= OwnRank(net, n)
    ensures net[n].rank != INFINITE_RANK ==> (hops + 1) * minHop <= net[n].rank
    decreases OwnRank(net, n)
  {
    HopUp(net, root, minHop, n);
    var p := net[n].preferred;
    if p == root {
      hops := 1;
      assert Ancestor(net, n, 1) == Ancestor(net, p, 0);
      OneMore(1, minHop);
    } else {
      var rest := ReachesRoot(net, root, minHop, p);
      hops := rest + 1;
      OneMore(rest + 1, minHop);
    }
  }

  lemma OneMore(k: nat, d: nat)
    ensures (k + 1) * d == k * d + d
  {
  }

  /** No member is its own ancestor. */
  lemma Acyclic(net: Network, root: Address, minHop: nat, n: Address, steps: nat)
    requires Consistent(net, root, minHop) && n in net && steps > 0
    ensures Ancestor(net, n, steps) != n
  {
    if net[n].preferred != ANY {
      RanksFall(net, root, minHop, n, steps);
    }
  }

  lemma {:induction false} RanksFall(net: Network, root: Address, minHop: nat, n: Address, steps: nat)
    requires Consistent(net, root, minHop) && n in net && net[n].preferred != ANY && steps > 0
    ensures var a := Ancestor(net, n, steps);
            a == root || (a in net && net[a].preferred != ANY && OwnRank(net, a) < OwnRank(net, n))
    decreases steps
  {
    HopUp(net, root, minHop, n);
    var p := net[n].preferred;
    if p != root && steps > 1 {
      RanksFall(net, root, minHop, p, steps - 1);
    }
  }

  /** A finite-rank member is at most rank / MinHopRankIncrease - 1 hops from the root. */
  lemma DepthIsBoundedByRank(net: Network, root: Address, minHop: nat, n: Address)
    requires Consistent(net, root, minHop) && n in net && net[n].rank != INFINITE_RANK
    ensures exists hops: nat :: 0 < hops <= net[n].rank / minHop - 1 && Ancestor(net, n, hops) == root
  {
    var hops := ReachesRoot(net, root, minHop, n);
    QuotientBound(hops + 1, minHop, net[n].rank);
  }

  lemma QuotientBound(k: nat, d: nat, x: nat)
    requires d > 0 && k * d <= x
    ensures k <= x / d
  {
    var q := x / d;
    assert x < q * d + d;
    if q + 1 <= k {
      assert (q + 1) * d <= k * d by { Scale(q + 1, k, d); }
      assert false;
    }
  }

  lemma {:induction false} Scale(a: nat, b: nat, d: nat)
    requires a <= b
    ensures a * d <= b * d
  {
  }
}
