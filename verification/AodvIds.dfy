/** Picking the Local RPLInstanceID of a route discovery, and the one an RREP-Instance is paired under (sections 6.1 and
    6.3.3 of RFC 9854). */
module AodvIds {
  import opened Lollipop
  import opened RplTypes

  const LOCAL_FLAG: Byte := 0x80
  const DELTAS := 64
  const LOCAL_IDS := 128

  /** A discovery tries the local IDs in order; an RREP-Instance the RREQ's own ID plus Delta = 0, 1, ... */
  datatype Purpose = Discovery | Reply(rreqId: Byte)

  function Tries(p: Purpose): nat {
    if p.Discovery? then LOCAL_IDS else DELTAS
  }

  function Candidate(p: Purpose, k: nat): Byte
    requires k < Tries(p)
  {
    match p
    case Discovery => LOCAL_FLAG + k
    case Reply(rreqId) => (rreqId + k) % 256
  }

  /** The 'D' flag of a Local RPLInstanceID. */
  predicate DFlag(id: Byte) {
    id / 64 % 2 == 1
  }

  /** The IDs in use at this node's address, and until when others are kept out of use: by the REJOIN_REENABLE bars at
      the one address and the other, and by P2P-RPL discoveries. */
  datatype Table = Table(joined: set<Byte>, bars: map<Byte, Time>, otherBars: map<Byte, Time>, p2pEnds: map<Byte, Time>)

  function BarEnd(t: Table, id: Byte, now: Time): Option<Time> {
    if id in t.bars && now < t.bars[id] then Some(t.bars[id])
    else if id in t.otherBars && now < t.otherBars[id] then Some(t.otherBars[id])
    else if id in t.p2pEnds && now < t.p2pEnds[id] then Some(t.p2pEnds[id])
    else None
  }

  predicate Open(p: Purpose, t: Table, k: nat)
    requires k < Tries(p)
  {
    !DFlag(Candidate(p, k)) && Candidate(p, k) !in t.joined
  }

  predicate Free(p: Purpose, t: Table, now: Time, k: nat)
    requires k < Tries(p)
  {
    Open(p, t, k) && BarEnd(t, Candidate(p, k), now).None?
  }

  /** The try settled on: a free one, or one still barred that comes free at `at`. */
  datatype Choice = Taken(k: nat) | Reused(k: nat, at: Time) | NoneLeft

  ghost predicate BestBarred(p: Purpose, t: Table, now: Time, k: nat, at: Time, upTo: nat)
    requires upTo <= Tries(p)
  {
    && k < upTo && Open(p, t, k) && BarEnd(t, Candidate(p, k), now) == Some(at)
    && (forall j :: 0 <= j < upTo && Open(p, t, j) && BarEnd(t, Candidate(p, j), now).Some? ==>
          at <= BarEnd(t, Candidate(p, j), now).value && (j < k ==> at < BarEnd(t, Candidate(p, j), now).value))
  }

  /** The first free ID; failing that the one that comes free first, the first of those; none only if all are in use. */
  ghost predicate IsChoice(p: Purpose, t: Table, now: Time, c: Choice) {
    match c
    case Taken(k) => k < Tries(p) && Free(p, t, now, k) && forall j :: 0 <= j < k ==> !Free(p, t, now, j)
    case Reused(k, at) =>
      (forall j :: 0 <= j < Tries(p) ==> !Free(p, t, now, j)) && BestBarred(p, t, now, k, at, Tries(p))
    case NoneLeft => forall j :: 0 <= j < Tries(p) ==> !Open(p, t, j)
  }

  method Choose(p: Purpose, t: Table, now: Time) returns (c: Choice)
    ensures IsChoice(p, t, now, c)
  {
    var anyBarred := false;
    var earliestFree, earliestFreeTry := 0, 0;
    for k := 0 to Tries(p)
      invariant forall j :: 0 <= j < k ==> !Free(p, t, now, j)
      invariant anyBarred ==> BestBarred(p, t, now, earliestFreeTry, earliestFree, k)
      invariant !anyBarred ==> forall j :: 0 <= j < k ==> !Open(p, t, j)
    {
      var candidate := Candidate(p, k);
      if DFlag(candidate) || candidate in t.joined {
        continue;
      }
      var end := BarEnd(t, candidate, now);
      if end.None? {
        return Taken(k);
      }
      if !anyBarred || end.value < earliestFree {
        earliestFree, earliestFreeTry := end.value, k;
      }
      anyBarred := true;
    }
    if anyBarred {
      return Reused(earliestFreeTry, earliestFree);
    }
    return NoneLeft;
  }

  /** The allocator's rule settles on one try. */
  lemma ChoiceIsUnique(p: Purpose, t: Table, now: Time, c: Choice, d: Choice)
    requires IsChoice(p, t, now, c) && IsChoice(p, t, now, d)
    ensures c == d
  {
    assert c.NoneLeft? || Open(p, t, c.k);
    assert d.NoneLeft? || Open(p, t, d.k);
  }

  /** Every receiver finds the RREQ-Instance again from the RREP's own ID and Delta, which fits its six bits; the ID has
      D clear and is not one in use. */
  lemma PairingIsRecovered(rreqId: Byte, t: Table, now: Time, c: Choice)
    requires IsChoice(Reply(rreqId), t, now, c) && !c.NoneLeft?
    ensures var id := Candidate(Reply(rreqId), c.k);
            c.k < DELTAS && (id - c.k) % 256 == rreqId && !DFlag(id) && id !in t.joined
  {
    assert Open(Reply(rreqId), t, c.k);
    hide BarEnd, BestBarred, Free;
    assert Candidate(Reply(rreqId), c.k) == if rreqId + c.k < 256 then rreqId + c.k else rreqId + c.k - 256;
  }

  /** An ID no instance has joined and no bar or discovery still holds. */
  predicate Unused(t: Table, id: Byte, now: Time) {
    && id !in t.joined && (id in t.bars ==> t.bars[id] <= now) && (id in t.otherBars ==> t.otherBars[id] <= now)
    && (id in t.p2pEnds ==> t.p2pEnds[id] <= now)
  }

  predicate HeldUntil(t: Table, id: Byte, at: Time) {
    (id in t.bars && t.bars[id] == at) || (id in t.otherBars && t.otherBars[id] == at)
    || (id in t.p2pEnds && t.p2pEnds[id] == at)
  }

  /** A discovery takes the first of the 64 local IDs with D clear, 128 to 191, that is unused; if none is, one not
      joined that some bar holds until the time given; and none only when all of them are joined. */
  lemma DiscoveryExactly(t: Table, now: Time, c: Choice)
    requires IsChoice(Discovery, t, now, c)
    ensures match c
            case Taken(k) =>
              && k < 64 && Unused(t, 128 + k, now)
              && forall id: Byte :: 128 <= id < 128 + k ==> !Unused(t, id, now)
            case Reused(k, at) =>
              && k < 64 && 128 + k !in t.joined && now < at && HeldUntil(t, 128 + k, at)
              && forall id: Byte :: 128 <= id < 192 ==> !Unused(t, id, now)
            case NoneLeft => forall id: Byte :: 128 <= id < 192 ==> id in t.joined
  {
    forall j: nat | j < 64
      ensures Candidate(Discovery, j) == 128 + j && !DFlag(128 + j)
      ensures Free(Discovery, t, now, j) <==> Unused(t, 128 + j, now)
    {
    }
    forall j: nat | 64 <= j < 128 ensures !Open(Discovery, t, j) {
    }
    forall id: Byte | 128 <= id < 192
      ensures Free(Discovery, t, now, id - 128) <==> Unused(t, id, now)
    {
    }
    match c
    case Taken(k) => assert Open(Discovery, t, k);
    case Reused(k, at) => assert Open(Discovery, t, k);
    case NoneLeft =>
      forall id: Byte | 128 <= id < 192 ensures id in t.joined {
        assert !Open(Discovery, t, id - 128);
      }
  }
}
