/** Data-plane loop detection: what the RPL Option's SenderRank and Rank-Error bit see of a packet's path. */
module LoopDetection {
  import opened RplTypes

  datatype Rpi = Rpi(down: bool, rankError: bool, forwardingError: bool, senderRank: Rank)

  /** The router a packet reaches: its rank in the packet's instance, and whether it routes the destination by a
      hop-by-hop route of its own. */
  datatype Visit = Visit(ownRank: Rank, hopByHop: bool)

  /** Confirmed is where the packet counts as dropped and Trickle is reset; Bounced is where the route that returned
      the packet is forgotten. */
  datatype Verdict = Malformed | Repeated | Unrouted | HopByHop | Bounced | Consistent | Flagged | Confirmed

  datatype Handling = Handling(rpi: Rpi, verdict: Verdict)

  predicate Wrong(down: bool, sender: Rank, own: Rank) {
    if down then sender >= own else sender <= own
  }

  function Handle(rpi: Rpi, v: Visit): Handling {
    if v.hopByHop then Handling(rpi, HopByHop)
    else if rpi.forwardingError then Handling(rpi.(forwardingError := false), Bounced)
    else if !Wrong(rpi.down, rpi.senderRank, v.ownRank) then Handling(rpi.(senderRank := v.ownRank), Consistent)
    else Handling(rpi.(rankError := true, senderRank := v.ownRank), if rpi.rankError then Confirmed else Flagged)
  }

  /** The packet last acted on. */
  datatype Stamp = Stamp(uid: nat, time: Time)

  class RplIpv6OptionRpl {
    var lastProcessedUid: nat
    var lastProcessedTime: Option<Time>

    constructor ()
      ensures lastProcessedUid == 0 && lastProcessedTime == None
    {
      lastProcessedUid, lastProcessedTime := 0, None;
    }

    predicate ActedOn(uid: nat, now: Time)
      reads this
    {
      uid == lastProcessedUid && lastProcessedTime == Some(now)
    }

    /** `router` is None on a node without RPL. */
    method Process(uid: nat, now: Time, rpi: Rpi, malformed: bool, router: Option<Visit>) returns (r: Handling)
      modifies this
      ensures malformed ==> r == Handling(rpi, Malformed)
      ensures !malformed && old(ActedOn(uid, now)) ==> r == Handling(rpi, Repeated)
      ensures !malformed && !old(ActedOn(uid, now)) ==>
                r == if router.Some? then Handle(rpi, router.value) else Handling(rpi, Unrouted)
      ensures if malformed then lastProcessedUid == old(lastProcessedUid) && lastProcessedTime == old(lastProcessedTime)
              else ActedOn(uid, now)
    {
      if malformed {
        return Handling(rpi, Malformed);
      }
      if uid == lastProcessedUid && lastProcessedTime == Some(now) {
        return Handling(rpi, Repeated);
      }
      lastProcessedUid, lastProcessedTime := uid, Some(now);
      if router.None? {
        return Handling(rpi, Unrouted);
      }
      if router.value.hopByHop {
        return Handling(rpi, HopByHop);
      }
      var after := rpi;
      if rpi.forwardingError {
        after := after.(forwardingError := false);
        return Handling(after, Bounced);
      }
      var inconsistent :=
        if rpi.down then rpi.senderRank >= router.value.ownRank else rpi.senderRank <= router.value.ownRank;
      var verdict := Consistent;
      if inconsistent {
        if after.rankError {
          verdict := Confirmed;
        } else {
          after := after.(rankError := true);
          verdict := Flagged;
        }
      }
      after := after.(senderRank := router.value.ownRank);
      return Handling(after, verdict);
    }

    /** A packet walked through its options twice in one event is judged once; the same packet met again later, as
        when it loops, is judged again. */
    method ReceiveTwice(uid: nat, now: Time, later: Time, rpi: Rpi, v: Visit)
      returns (first: Handling, again: Handling, looped: Handling)
      requires later != now && !ActedOn(uid, now)
      modifies this
      ensures first == Handle(rpi, v)
      ensures again == Handling(first.rpi, Repeated)
      ensures looped == Handle(first.rpi, v)
    {
      first := Process(uid, now, rpi, false, Some(v));
      again := Process(uid, now, first.rpi, false, Some(v));
      looped := Process(uid, later, again.rpi, false, Some(v));
    }
  }

  // ---------------------------------------------------------------- whole paths

  function Carry(rpi: Rpi, path: seq<Visit>): Rpi
    decreases |path|
  {
    if path == [] then rpi else Carry(Handle(rpi, path[0]).rpi, path[1..])
  }

  /** How often the packet is found on a confirmed inconsistency. */
  function Confirmations(rpi: Rpi, path: seq<Visit>): nat
    decreases |path|
  {
    if path == [] then 0
    else (if Handle(rpi, path[0]).verdict == Confirmed then 1 else 0)
         + Confirmations(Handle(rpi, path[0]).rpi, path[1..])
  }

  /** The ranks the check compares: routers taking the packet by a hop-by-hop route do not count. */
  function Ranks(path: seq<Visit>): seq<Rank> {
    if path == [] then []
    else (if path[0].hopByHop then [] else [path[0].ownRank]) + Ranks(path[1..])
  }

  /** The hops that go the wrong way, leaving a router of rank `sender`. */
  function Wrongs(down: bool, sender: Rank, ranks: seq<Rank>): nat
    decreases |ranks|
  {
    if ranks == [] then 0
    else (if Wrong(down, sender, ranks[0]) then 1 else 0) + Wrongs(down, ranks[0], ranks[1..])
  }

  function LastOf(sender: Rank, ranks: seq<Rank>): Rank {
    if ranks == [] then sender else ranks[|ranks| - 1]
  }

  /** Over any path, the option counts the wrong-way hops: the first sets the bit, every later one is confirmed. */
  lemma {:induction false} CountsWrongHops(rpi: Rpi, path: seq<Visit>)
    requires !rpi.forwardingError
    ensures var n := Wrongs(rpi.down, rpi.senderRank, Ranks(path));
            && Confirmations(rpi, path) == (if rpi.rankError || n == 0 then n else n - 1)
            && Carry(rpi, path) == rpi.(rankError := rpi.rankError || n > 0,
                                         senderRank := LastOf(rpi.senderRank, Ranks(path)))
    decreases |path|
  {
    if path != [] {
      CountsWrongHops(Handle(rpi, path[0]).rpi, path[1..]);
      if !path[0].hopByHop {
        assert Ranks(path)[0] == path[0].ownRank && Ranks(path)[1..] == Ranks(path[1..]);
      } else {
        assert Ranks(path) == Ranks(path[1..]);
      }
    }
  }

  /** A packet sent back is taken up as such once, by the first router that does not route it hop by hop, and from there
      goes on as one that never was. */
  lemma {:induction false} BounceIsTakenOnce(rpi: Rpi, path: seq<Visit>, i: nat)
    requires rpi.forwardingError && i < |path|
    requires !path[i].hopByHop && forall j :: 0 <= j < i ==> path[j].hopByHop
    ensures Carry(rpi, path[..i]) == rpi && Handle(rpi, path[i]).verdict == Bounced
    ensures var clear := rpi.(forwardingError := false);
            && Carry(rpi, path) == Carry(clear, path[i + 1..])
            && Confirmations(rpi, path) == Confirmations(clear, path[i + 1..])
  {
    if i > 0 {
      BounceIsTakenOnce(rpi, path[1..], i - 1);
      assert path[..i][1..] == path[1..][..i - 1] && path[i + 1..] == path[1..][i..];
    }
  }

  /** Each rank strictly nearer the root than the one before, or strictly further for a packet going down. */
  predicate Monotone(down: bool, ranks: seq<Rank>) {
    forall i :: 0 < i < |ranks| ==> if down then ranks[i - 1] < ranks[i] else ranks[i - 1] > ranks[i]
  }

  lemma MonotoneFrom(down: bool, sender: Rank, ranks: seq<Rank>)
    requires ranks != []
    ensures Monotone(down, [sender] + ranks) <==> !Wrong(down, sender, ranks[0]) && Monotone(down, ranks)
  {
    var all := [sender] + ranks;
    assert forall i :: 0 <= i < |ranks| ==> all[i + 1] == ranks[i];
    if Monotone(down, all) {
      assert all[0] == sender && all[1] == ranks[0];
      forall i | 0 < i < |ranks| ensures if down then ranks[i - 1] < ranks[i] else ranks[i - 1] > ranks[i] {
        assert all[i] == ranks[i - 1] && all[i + 1] == ranks[i];
      }
    }
  }

  lemma {:induction false} NoWrongHopExactly(down: bool, sender: Rank, ranks: seq<Rank>)
    ensures Wrongs(down, sender, ranks) == 0 <==> Monotone(down, [sender] + ranks)
    decreases |ranks|
  {
    if ranks != [] {
      NoWrongHopExactly(down, ranks[0], ranks[1..]);
      hide Monotone, Wrong;
      assert [ranks[0]] + ranks[1..] == ranks;
      MonotoneFrom(down, sender, ranks);
    }
  }

  /** A packet is left unflagged exactly on strictly rank-monotone paths, and is never confirmed there. */
  lemma UnflaggedExactly(rpi: Rpi, path: seq<Visit>)
    requires !rpi.rankError && !rpi.forwardingError
    ensures !Carry(rpi, path).rankError <==> Monotone(rpi.down, [rpi.senderRank] + Ranks(path))
    ensures !Carry(rpi, path).rankError ==> Confirmations(rpi, path) == 0
  {
    CountsWrongHops(rpi, path);
    NoWrongHopExactly(rpi.down, rpi.senderRank, Ranks(path));
  }

  // ---------------------------------------------------------------- loops

  lemma {:induction false} WrongsAdd(down: bool, sender: Rank, a: seq<Rank>, b: seq<Rank>)
    ensures Wrongs(down, sender, a + b) == Wrongs(down, sender, a) + Wrongs(down, LastOf(sender, a), b)
    decreases |a|
  {
    if a == [] {
      assert a + b == b;
    } else {
      assert (a + b)[1..] == a[1..] + b;
      WrongsAdd(down, a[0], a[1..], b);
    }
  }

  lemma {:induction false} RanksAdd(a: seq<Visit>, b: seq<Visit>)
    ensures Ranks(a + b) == Ranks(a) + Ranks(b)
    decreases |a|
  {
    if a == [] {
      assert a + b == b;
    } else {
      assert (a + b)[1..] == a[1..] + b;
      RanksAdd(a[1..], b);
    }
  }

  lemma {:induction false} MonotoneGoesAway(down: bool, ranks: seq<Rank>)
    requires Monotone(down, ranks) && |ranks| > 1
    ensures if down then ranks[0] < ranks[|ranks| - 1] else ranks[0] > ranks[|ranks| - 1]
    decreases |ranks|
  {
    var front := ranks[..|ranks| - 1];
    assert if down then ranks[|ranks| - 2] < ranks[|ranks| - 1] else ranks[|ranks| - 2] > ranks[|ranks| - 1];
    if |front| > 1 {
      assert forall i :: 0 <= i < |front| ==> front[i] == ranks[i];
      MonotoneGoesAway(down, front);
    }
  }

  /** A lap: it ends where it began. */
  predicate Lap(sender: Rank, ranks: seq<Rank>) {
    ranks != [] && LastOf(sender, ranks) == sender
  }

  lemma EveryLapHasAWrongHop(down: bool, sender: Rank, ranks: seq<Rank>)
    requires Lap(sender, ranks)
    ensures Wrongs(down, sender, ranks) >= 1
  {
    NoWrongHopExactly(down, sender, ranks);
    assert ([sender] + ranks)[|ranks|] == sender;
    if Monotone(down, [sender] + ranks) {
      MonotoneGoesAway(down, [sender] + ranks);
    }
  }

  lemma TwoLapsHaveTwo(down: bool, sender: Rank, approach: seq<Rank>, lap: seq<Rank>)
    requires Lap(LastOf(sender, approach), lap)
    ensures Wrongs(down, sender, approach + lap + lap) >= 2
  {
    var at := LastOf(sender, approach);
    EveryLapHasAWrongHop(down, at, lap);
    WrongsAdd(down, sender, approach, lap);
    WrongsAdd(down, sender, approach + lap, lap);
    assert LastOf(sender, approach + lap) == at;
  }

  /** However a packet came to a loop, the loop is confirmed by the end of the second lap. */
  lemma LoopIsConfirmed(rpi: Rpi, approach: seq<Visit>, lap: seq<Visit>)
    requires !rpi.forwardingError
    requires Lap(LastOf(rpi.senderRank, Ranks(approach)), Ranks(lap))
    ensures Confirmations(rpi, approach + lap + lap) >= 1
  {
    RanksAdd(approach, lap);
    RanksAdd(approach + lap, lap);
    TwoLapsHaveTwo(rpi.down, rpi.senderRank, Ranks(approach), Ranks(lap));
    CountsWrongHops(rpi, approach + lap + lap);
  }

  /** The second lap can be needed: a lap that only goes wrong where it closes is not confirmed by the first, and is by
      the hop that closes the second. */
  lemma SecondLapCanBeNeeded(rpi: Rpi, lap: seq<Visit>)
    requires !rpi.rankError && !rpi.forwardingError
    requires Lap(rpi.senderRank, Ranks(lap)) && Monotone(rpi.down, Ranks(lap))
    ensures Confirmations(rpi, lap) == 0
    ensures Confirmations(rpi, lap + lap) == 1
  {
    var down, sender, ranks := rpi.down, rpi.senderRank, Ranks(lap);
    NoWrongHopExactly(down, ranks[0], ranks[1..]);
    assert [ranks[0]] + ranks[1..] == ranks;
    EveryLapHasAWrongHop(down, sender, ranks);
    CountsWrongHops(rpi, lap);
    RanksAdd(lap, lap);
    WrongsAdd(down, sender, ranks, ranks);
    CountsWrongHops(rpi, lap + lap);
  }
}
