/** The routes an intermediate router of a P2P-RPL discovery keeps to choose from: those through its best live
    neighbours, and no others (section 9.4 of RFC 6997). */
module P2pCandidates {
  import opened RplTypes
  import opened Paths
  import FloodPaths

  type Path = FloodPaths.Path

  const MAX_CANDIDATE_ROUTES := 14

  datatype Candidate = Candidate(from: Address, route: Path)

  /** The rank each neighbour still in the parent set would give. */
  type Ranks = map<Address, Rank>

  datatype Candidates = Candidates(kept: seq<Candidate>, rank: Rank)

  predicate Live(ranks: Ranks, c: Candidate) {
    c.from in ranks && ranks[c.from] != INFINITE_RANK
  }

  function Best(ranks: Ranks, kept: seq<Candidate>): Rank {
    if kept == [] then INFINITE_RANK
    else
      var last, rest := kept[|kept| - 1], Best(ranks, kept[..|kept| - 1]);
      if Live(ranks, last) && ranks[last.from] < rest then ranks[last.from] else rest
  }

  function Tying(ranks: Ranks, kept: seq<Candidate>, rank: Rank): seq<Candidate> {
    if kept == [] then []
    else (if Live(ranks, kept[0]) && ranks[kept[0].from] == rank then [kept[0]] else []) + Tying(ranks, kept[1..], rank)
  }

  function Pruned(ranks: Ranks, s: Candidates): Candidates {
    var best := Best(ranks, s.kept);
    Candidates(Tying(ranks, s.kept, best), best)
  }

  predicate HasRoute(kept: seq<Candidate>, route: Path) {
    exists i :: 0 <= i < |kept| && kept[i].route == route
  }

  /** Weighing the route a copy heard from `from` describes, completed with this router's own address. */
  function Recorded(ranks: Ranks, s: Candidates, own: Address, from: Address, heard: Path, capacity: nat): Candidates {
    var c := Candidate(from, heard + [own]);
    if !Live(ranks, c) then s
    else
      var p := Pruned(ranks, s);
      var rank := ranks[from];
      if rank > p.rank || |c.route| > capacity then p
      else
        var q := if rank < p.rank then Candidates([], rank) else p;
        if HasRoute(q.kept, c.route) || |q.kept| >= MAX_CANDIDATE_ROUTES then q else q.(kept := q.kept + [c])
  }

  /** What a DIO carries: the drawn candidate if any is left, else the router's own vector. */
  function Advertised(ranks: Ranks, s: Candidates, vector: Path, draw: nat): Path {
    var p := Pruned(ranks, s);
    if p.kept == [] then vector else p.kept[draw % |p.kept|].route
  }

  lemma {:induction false} TyingOneMore(ranks: Ranks, kept: seq<Candidate>, c: Candidate, rank: Rank)
    ensures Tying(ranks, kept + [c], rank)
         == Tying(ranks, kept, rank) + if Live(ranks, c) && ranks[c.from] == rank then [c] else []
  {
    if kept == [] {
      assert kept + [c] == [c] && [c][1..] == [];
    } else {
      assert (kept + [c])[1..] == kept[1..] + [c];
      TyingOneMore(ranks, kept[1..], c, rank);
      Associates(if Live(ranks, kept[0]) && ranks[kept[0].from] == rank then [kept[0]] else [],
                 Tying(ranks, kept[1..], rank), if Live(ranks, c) && ranks[c.from] == rank then [c] else []);
    }
  }

  class CandidateSet {
    var kept: seq<Candidate>
    var rank: Rank

    constructor ()
      ensures kept == [] && rank == INFINITE_RANK
    {
      kept, rank := [], INFINITE_RANK;
    }

    function State(): Candidates
      reads this
    {
      Candidates(kept, rank)
    }

    method FindBest(ranks: Ranks) returns (best: Rank)
      ensures best == Best(ranks, kept)
    {
      best := INFINITE_RANK;
      for k := 0 to |kept|
        invariant best == Best(ranks, kept[..k])
      {
        assert kept[..k + 1][..k] == kept[..k];
        if kept[k].from in ranks && ranks[kept[k].from] != INFINITE_RANK && ranks[kept[k].from] < best {
          best := ranks[kept[k].from];
        }
      }
      assert kept[..|kept|] == kept;
    }

    method Survivors(ranks: Ranks, best: Rank) returns (survivors: seq<Candidate>)
      ensures survivors == Tying(ranks, kept, best)
    {
      survivors := [];
      assert Tying(ranks, kept[..0], best) == [];
      hide Tying;
      for j := 0 to |kept|
        invariant survivors == Tying(ranks, kept[..j], best)
      {
        var c := kept[j];
        TyingOneMore(ranks, kept[..j], c, best);
        assert kept[..j + 1] == kept[..j] + [c];
        if c.from in ranks && ranks[c.from] != INFINITE_RANK && ranks[c.from] == best {
          survivors := survivors + [c];
        }
      }
      assert kept[..|kept|] == kept;
    }

    method Prune(ranks: Ranks)
      modifies this
      ensures State() == Pruned(ranks, old(State()))
    {
      var best := FindBest(ranks);
      var survivors := Survivors(ranks, best);
      kept, rank := survivors, best;
    }

    method Known(route: Path) returns (known: bool)
      ensures known == HasRoute(kept, route)
    {
      for j := 0 to |kept|
        invariant forall i :: 0 <= i < j ==> kept[i].route != route
      {
        if kept[j].route == route {
          return true;
        }
      }
      return false;
    }

    method RecordP2pCandidateRoute(ranks: Ranks, own: Address, from: Address, heard: Path, capacity: nat)
      modifies this
      ensures State() == Recorded(ranks, old(State()), own, from, heard, capacity)
    {
      if from !in ranks || ranks[from] == INFINITE_RANK {
        return;
      }
      Prune(ranks);
      if ranks[from] > rank {
        return;
      }
      var route := heard + [own];
      if |route| > capacity {
        return;
      }
      if ranks[from] < rank {
        kept, rank := [], ranks[from];
      }
      var known := Known(route);
      if known || |kept| >= MAX_CANDIDATE_ROUTES {
        return;
      }
      kept := kept + [Candidate(from, route)];
    }

    /** Any candidate may be drawn. */
    method AddressVectorToSend(ranks: Ranks, vector: Path, draw: nat) returns (v: Path)
      modifies this
      ensures State() == Pruned(ranks, old(State())) && v == Advertised(ranks, old(State()), vector, draw)
    {
      Prune(ranks);
      if kept == [] {
        return vector;
      }
      return kept[draw % |kept|].route;
    }
  }

  // ---------------------------------------------------------------- what the set is

  predicate Distinct(kept: seq<Candidate>) {
    forall i, j :: 0 <= i < j < |kept| ==> kept[i].route != kept[j].route
  }

  lemma {:induction false} TyingAre(ranks: Ranks, kept: seq<Candidate>, rank: Rank)
    ensures var t := Tying(ranks, kept, rank);
            && (forall c :: c in t <==> c in kept && Live(ranks, c) && ranks[c.from] == rank)
            && |t| <= |kept| && (Distinct(kept) ==> Distinct(t))
  {
    if kept != [] {
      TyingAre(ranks, kept[1..], rank);
      if Distinct(kept) {
        assert Distinct(kept[1..]);
        assert forall c :: c in kept[1..] ==> c.route != kept[0].route;
      }
    }
  }

  lemma {:induction false} BestIs(ranks: Ranks, kept: seq<Candidate>)
    ensures forall c :: c in kept && Live(ranks, c) ==> Best(ranks, kept) <= ranks[c.from]
    ensures Best(ranks, kept) != INFINITE_RANK ==>
              exists c :: c in kept && Live(ranks, c) && ranks[c.from] == Best(ranks, kept)
  {
    if kept != [] {
      var front := kept[..|kept| - 1];
      BestIs(ranks, front);
      assert kept == front + [kept[|kept| - 1]];
      assert forall c :: c in kept <==> c in front || c == kept[|kept| - 1];
    }
  }

  lemma PrunedIs(ranks: Ranks, s: Candidates)
    requires Distinct(s.kept) && |s.kept| <= MAX_CANDIDATE_ROUTES
    ensures var p := Pruned(ranks, s);
            && Distinct(p.kept) && |p.kept| <= MAX_CANDIDATE_ROUTES
            && (forall c :: c in p.kept <==> c in s.kept && Live(ranks, c) && ranks[c.from] == p.rank)
            && (forall c :: c in s.kept && Live(ranks, c) ==> p.rank <= ranks[c.from])
            && (p.kept == [] <==> p.rank == INFINITE_RANK)
  {
    BestIs(ranks, s.kept);
    TyingAre(ranks, s.kept, Best(ranks, s.kept));
    var p := Pruned(ranks, s);
    if p.kept != [] {
      assert p.kept[0] in p.kept;
    }
  }

  /** After a copy from a live neighbour has been weighed against ranks that may have moved in any way since, the set
      holds exactly the routes, old and new, through neighbours of the one best rank: all of those still held that tie
      it, and the new one if it ties, fits, is not there already, and is within the cap. */
  lemma SetIsBestSeen(ranks: Ranks, s: Candidates, own: Address, from: Address, heard: Path, capacity: nat)
    requires Distinct(s.kept) && |s.kept| <= MAX_CANDIDATE_ROUTES && |heard| + 1 <= capacity
    requires from in ranks && ranks[from] != INFINITE_RANK
    ensures var c := Candidate(from, heard + [own]);
            var r := Recorded(ranks, s, own, from, heard, capacity);
            && Distinct(r.kept) && 0 < |r.kept| <= MAX_CANDIDATE_ROUTES
            && r.rank <= ranks[from]
            && (forall x :: x in s.kept && Live(ranks, x) ==> r.rank <= ranks[x.from])
            && (forall x :: x in r.kept ==> Live(ranks, x) && ranks[x.from] == r.rank && (x in s.kept || x == c))
            && (forall x :: x in s.kept && Live(ranks, x) && ranks[x.from] == r.rank ==> x in r.kept)
            && (ranks[from] == r.rank && |r.kept| < MAX_CANDIDATE_ROUTES ==> HasRoute(r.kept, c.route))
  {
    PrunedIs(ranks, s);
    var c := Candidate(from, heard + [own]);
    var r := Recorded(ranks, s, own, from, heard, capacity);
    var p := Pruned(ranks, s);
    if ranks[from] <= p.rank {
      var q := if ranks[from] < p.rank then Candidates([], ranks[from]) else p;
      if !HasRoute(q.kept, c.route) && |q.kept| < MAX_CANDIDATE_ROUTES {
        assert r.kept == q.kept + [c] && r.kept[|q.kept|].route == c.route;
      }
    }
  }

  /** What a DIO may carry: a route kept through a live neighbour of the best rank, each of which some draw selects;
      only if no neighbour they came through is live, the router's own vector. */
  lemma AdvertisedExactly(ranks: Ranks, s: Candidates, vector: Path, draw: nat)
    ensures if exists c :: c in s.kept && Live(ranks, c)
            then exists c :: BestLive(ranks, s.kept, c) && Advertised(ranks, s, vector, draw) == c.route
            else Advertised(ranks, s, vector, draw) == vector
    ensures forall c :: BestLive(ranks, s.kept, c) ==> exists n: nat :: Advertised(ranks, s, vector, n) == c.route
  {
    var kept := Pruned(ranks, s).kept;
    BestLiveAreKept(ranks, s);
    hide Pruned, BestLive, Live;
    if kept != [] {
      DrawsAre(kept, draw);
      forall c | BestLive(ranks, s.kept, c) ensures exists n: nat :: Advertised(ranks, s, vector, n) == c.route {
        var n: nat :| kept[n % |kept|] == c;
        assert Advertised(ranks, s, vector, n) == c.route;
      }
    }
  }

  lemma BestLiveAreKept(ranks: Ranks, s: Candidates)
    ensures forall c :: c in Pruned(ranks, s).kept <==> BestLive(ranks, s.kept, c)
    ensures (exists c :: c in s.kept && Live(ranks, c)) <==> Pruned(ranks, s).kept != []
  {
    BestIs(ranks, s.kept);
    TyingAre(ranks, s.kept, Best(ranks, s.kept));
    hide Best, Tying;
    var kept := Pruned(ranks, s).kept;
    assert kept != [] ==> kept[0] in kept;
  }

  /** A draw picks one that is there, and any of them can be drawn. */
  lemma DrawsAre(kept: seq<Candidate>, draw: nat)
    requires kept != []
    ensures kept[draw % |kept|] in kept
    ensures forall c :: c in kept ==> exists n: nat :: kept[n % |kept|] == c
  {
    forall c | c in kept ensures exists n: nat :: kept[n % |kept|] == c {
      var n :| 0 <= n < |kept| && kept[n] == c;
      SmallRest(n, |kept|);
    }
  }

  lemma SmallRest(n: nat, d: nat)
    requires n < d
    ensures n % d == n
  {
  }

  ghost predicate BestLive(ranks: Ranks, kept: seq<Candidate>, c: Candidate) {
    c in kept && Live(ranks, c) && forall x :: x in kept && Live(ranks, x) ==> ranks[c.from] <= ranks[x.from]
  }

  /** Every route in the set is a copy heard with this router's address appended, now or before. */
  lemma KeptWereHeard(ranks: Ranks, s: Candidates, own: Address, from: Address, heard: Path, capacity: nat)
    ensures forall c :: c in Recorded(ranks, s, own, from, heard, capacity).kept ==>
              c in s.kept || c == Candidate(from, heard + [own])
    ensures forall c :: c in Pruned(ranks, s).kept ==> c in s.kept
  {
    TyingAre(ranks, s.kept, Best(ranks, s.kept));
  }
}
