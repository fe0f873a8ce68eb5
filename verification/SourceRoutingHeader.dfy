/** The source routing header: its encoding, with the link-local prefix elided, and what a router does with one. */
module SourceRoutingHeader {
  import opened Lollipop
  import opened Octets
  import opened Paths

  const MAX_SERIALIZED_SIZE := 2048

  datatype Header = Header(nextHeader: Byte, typeRouting: Byte, segmentsLeft: Byte, addresses: seq<Ip>)

  // ---------------------------------------------------------------- the wire format

  /** Octets elided from every address but the last. */
  function CmprI(addresses: seq<Ip>): Byte {
    if |addresses| >= 2 && forall i :: 0 <= i < |addresses| - 1 ==> IsLinkLocal(addresses[i]) then 8 else 0
  }

  /** Octets elided from the last address. */
  function CmprE(addresses: seq<Ip>): Byte {
    if addresses != [] && IsLinkLocal(addresses[|addresses| - 1]) then 8 else 0
  }

  function Size(addresses: seq<Ip>): nat {
    if addresses == [] then 8
    else 8 + (|addresses| - 1) * (16 - CmprI(addresses)) + (16 - CmprE(addresses))
  }

  function Entries(addresses: seq<Ip>, cmprI: Byte, cmprE: Byte): Bytes
    requires cmprI < 16 && cmprE < 16
  {
    if addresses == [] then []
    else addresses[0][if |addresses| == 1 then cmprE else cmprI..] + Entries(addresses[1..], cmprI, cmprE)
  }

  predicate Fits(h: Header) {
    Size(h.addresses) <= MAX_SERIALIZED_SIZE
  }

  function Encode(h: Header): Bytes
    requires Fits(h)
  {
    var cmprI, cmprE := CmprI(h.addresses), CmprE(h.addresses);
    [h.nextHeader, (Size(h.addresses) - 8) / 8, h.typeRouting, h.segmentsLeft, cmprI * 16 + cmprE, 0, 0, 0]
    + Entries(h.addresses, cmprI, cmprE)
  }

  /** At most eight elided octets come back from the link-local prefix, any beyond that as zeros. */
  function Restore(elided: Byte, tail: Bytes): Ip
    requires elided < 16 && |tail| == 16 - elided
  {
    (if elided <= 8 then LINK_LOCAL_PREFIX[..elided] else LINK_LOCAL_PREFIX + UNSPECIFIED[..elided - 8]) + tail
  }

  /** The octets `n` compressed addresses take. */
  function Room(n: nat, cmprI: Byte, cmprE: Byte): nat
    requires cmprI < 16 && cmprE < 16
  {
    if n == 0 then 0 else if n == 1 then 16 - cmprE else 16 - cmprI + Room(n - 1, cmprI, cmprE)
  }

  lemma {:induction false} RoomIs(n: nat, cmprI: Byte, cmprE: Byte)
    requires cmprI < 16 && cmprE < 16 && n > 0
    ensures Room(n, cmprI, cmprE) == (n - 1) * (16 - cmprI) + (16 - cmprE)
  {
    if n > 1 {
      RoomIs(n - 1, cmprI, cmprE);
      assert (n - 1) * (16 - cmprI) == (n - 2) * (16 - cmprI) + (16 - cmprI);
    }
  }

  function Parse(b: Bytes, n: nat, cmprI: Byte, cmprE: Byte): seq<Ip>
    requires cmprI < 16 && cmprE < 16 && |b| >= Room(n, cmprI, cmprE)
  {
    if n == 0 then []
    else if n == 1 then [Restore(cmprE, b[..16 - cmprE])]
    else [Restore(cmprI, b[..16 - cmprI])] + Parse(b[16 - cmprI..], n - 1, cmprI, cmprE)
  }

  /** How many octets the header spans: what it claims, but no more than there are. */
  function Span(b: Bytes): nat
    requires |b| >= 8
  {
    var units: int := b[1];
    if (units + 1) * 8 > |b| then |b| else (units + 1) * 8
  }

  /** How many addresses fit the span after its padding. */
  function Count(b: Bytes): nat
    requires |b| >= 8
  {
    var cmprI, cmprE, pad := b[4] / 16, b[4] % 16, b[5] / 16;
    var room := if Span(b) - 8 > pad then Span(b) - 8 - pad else 0;
    if room >= 16 - cmprE then Whole(room - (16 - cmprE), 16 - cmprI) + 1 else 0
  }

  lemma CountFits(b: Bytes)
    requires |b| >= 8 && Count(b) > 0
    ensures Room(Count(b), b[4] / 16, b[4] % 16) <= Span(b) - 8 <= |b| - 8
  {
    RoomIs(Count(b), b[4] / 16, b[4] % 16);
    var cmprI, cmprE, pad := b[4] / 16, b[4] % 16, b[5] / 16;
    var room := if Span(b) - 8 > pad then Span(b) - 8 - pad else 0;
    hide Whole, Room;
    FloorFits(room - (16 - cmprE), 16 - cmprI);
  }

  lemma FloorFits(x: nat, d: nat)
    requires d > 0
    ensures Whole(x, d) * d <= x
  {
    assert x / d * d <= x;
  }

  function Decode(b: Bytes): (Header, nat)
    requires |b| >= 8
  {
    if Count(b) > 0 then
      CountFits(b);
      (Header(b[0], b[2], b[3], Parse(b[8..], Count(b), b[4] / 16, b[4] % 16)), Span(b))
    else (Header(b[0], b[2], b[3], []), Span(b))
  }

  lemma {:induction false} EntriesLength(addresses: seq<Ip>, cmprI: Byte, cmprE: Byte)
    requires cmprI in {0, 8} && cmprE in {0, 8}
    ensures |Entries(addresses, cmprI, cmprE)| == Room(|addresses|, cmprI, cmprE)
  {
    if |addresses| > 0 {
      EntriesLength(addresses[1..], cmprI, cmprE);
    }
  }

  lemma RestoreUndoesElision(a: Ip, elided: Byte)
    requires elided == 0 || (elided == 8 && IsLinkLocal(a))
    ensures Restore(elided, a[elided..]) == a
  {
    assert a == a[..8] + a[8..];
  }

  lemma NothingToParse(b: Bytes, cmprI: Byte, cmprE: Byte)
    requires cmprI < 16 && cmprE < 16
    ensures |b| >= Room(0, cmprI, cmprE) && Parse(b, 0, cmprI, cmprE) == []
  {
  }

  lemma {:induction false} ParseUndoesEntries(addresses: seq<Ip>, cmprI: Byte, cmprE: Byte, rest: Bytes)
    requires cmprI == 0 || (cmprI == 8 && forall i :: 0 <= i < |addresses| - 1 ==> IsLinkLocal(addresses[i]))
    requires cmprE == 0 || (cmprE == 8 && addresses != [] && IsLinkLocal(addresses[|addresses| - 1]))
    ensures var b := Entries(addresses, cmprI, cmprE) + rest;
            |b| >= Room(|addresses|, cmprI, cmprE) && Parse(b, |addresses|, cmprI, cmprE) == addresses
  {
    if addresses == [] {
      NothingToParse(Entries(addresses, cmprI, cmprE) + rest, cmprI, cmprE);
    } else {
      var a, more := addresses[0], addresses[1..];
      var elided := if |addresses| == 1 then cmprE else cmprI;
      RestoreUndoesElision(a, elided);
      assert Entries(addresses, cmprI, cmprE) == a[elided..] + Entries(more, cmprI, cmprE);
      assert Entries([], cmprI, cmprE) == [];
      hide Restore, Parse, Room, IsLinkLocal, Entries;
      if more == [] {
        NothingToParse([] + rest, cmprI, cmprE);
      } else {
        ParseUndoesEntries(more, cmprI, cmprE, rest);
      }
      Associates(a[elided..], Entries(more, cmprI, cmprE), rest);
    }
  }

  lemma SizeIsWhole(addresses: seq<Ip>)
    ensures Size(addresses) % 8 == 0 && Size(addresses) >= 8
  {
    if CmprI(addresses) == 8 {
      assert (|addresses| - 1) * (16 - CmprI(addresses)) == (|addresses| - 1) * 8;
    } else {
      assert (|addresses| - 1) * (16 - CmprI(addresses)) == (|addresses| - 1) * 16;
    }
  }

  lemma CountIsLength(addresses: seq<Ip>, b: Bytes)
    requires |b| >= 8 && Span(b) == Size(addresses)
    requires b[4] / 16 == CmprI(addresses) && b[4] % 16 == CmprE(addresses) && b[5] == 0
    ensures Count(b) == |addresses|
  {
    var k := |addresses| - 1;
    if CmprI(addresses) == 8 {
      assert k * (16 - CmprI(addresses)) == k * 8;
    } else {
      assert k * (16 - CmprI(addresses)) == k * 16;
    }
  }

  /** Whatever follows the header, decoding what was encoded restores it, and spans exactly the octets written. */
  lemma RoundTrip(h: Header, payload: Bytes)
    requires Fits(h)
    ensures |Encode(h)| == Size(h.addresses)
    ensures Decode(Encode(h) + payload) == (h, Size(h.addresses))
  {
    var cmprI, cmprE := CmprI(h.addresses), CmprE(h.addresses);
    EntriesLength(h.addresses, cmprI, cmprE);
    if h.addresses != [] { RoomIs(|h.addresses|, cmprI, cmprE); }
    var b := Encode(h) + payload;
    assert b[8..] == Entries(h.addresses, cmprI, cmprE) + payload;
    assert b[1] == (Size(h.addresses) - 8) / 8 && b[4] == cmprI * 16 + cmprE && b[5] == 0;
    SizeIsWhole(h.addresses);
    assert Span(b) == Size(h.addresses);
    assert b[4] / 16 == cmprI && b[4] % 16 == cmprE;
    CountIsLength(h.addresses, b);
    if h.addresses != [] {
      ParseUndoesEntries(h.addresses, cmprI, cmprE, payload);
    }
  }

  method Serialize(h: Header) returns (b: Bytes)
    requires Fits(h)
    ensures b == Encode(h)
  {
    var cmprI, cmprE := CmprI(h.addresses), CmprE(h.addresses);
    SizeIsWhole(h.addresses);
    b := [h.nextHeader, (Size(h.addresses) - 8) / 8, h.typeRouting, h.segmentsLeft, cmprI * 16 + cmprE, 0, 0, 0];
    ghost var fixedPart := b;
    var i := 0;
    while i < |h.addresses|
      invariant 0 <= i <= |h.addresses|
      invariant b + Entries(h.addresses[i..], cmprI, cmprE) == fixedPart + Entries(h.addresses, cmprI, cmprE)
    {
      var elided := if i + 1 == |h.addresses| then cmprE else cmprI;
      assert h.addresses[i..][1..] == h.addresses[i + 1..];
      b := b + h.addresses[i][elided..];
      i := i + 1;
    }
  }

  lemma ParseStep(b: Bytes, pos: nat, n: nat, cmprI: Byte, cmprE: Byte)
    requires cmprI < 16 && cmprE < 16 && n > 0 && pos <= |b| && |b| - pos >= Room(n, cmprI, cmprE)
    ensures var elided := if n == 1 then cmprE else cmprI;
            && pos + 16 - elided <= |b| && |b| - (pos + 16 - elided) >= Room(n - 1, cmprI, cmprE)
            && Parse(b[pos..], n, cmprI, cmprE) == [Restore(elided, b[pos..pos + 16 - elided])]
                                                   + Parse(b[pos + 16 - elided..], n - 1, cmprI, cmprE)
  {
    var elided := if n == 1 then cmprE else cmprI;
    assert b[pos..][..16 - elided] == b[pos..pos + 16 - elided];
    assert b[pos..][16 - elided..] == b[pos + 16 - elided..];
  }

  /** Reads n addresses from octet 8 on. */
  method ReadAddresses(b: Bytes, n: nat, cmprI: Byte, cmprE: Byte) returns (addresses: seq<Ip>)
    requires cmprI < 16 && cmprE < 16 && |b| >= 8 && |b| - 8 >= Room(n, cmprI, cmprE)
    ensures addresses == Parse(b[8..], n, cmprI, cmprE)
  {
    hide Restore, Parse, Room;
    addresses := [];
    ghost var all := Parse(b[8..], n, cmprI, cmprE);
    var pos, i := 8, 0;
    while i < n
      invariant 0 <= i <= n && 8 <= pos <= |b|
      invariant |b| - pos >= Room(n - i, cmprI, cmprE)
      invariant addresses + Parse(b[pos..], n - i, cmprI, cmprE) == all
    {
      var elided := if i + 1 == n then cmprE else cmprI;
      ParseStep(b, pos, n - i, cmprI, cmprE);
      var a := Restore(elided, b[pos..pos + 16 - elided]);
      ghost var rest := Parse(b[pos + 16 - elided..], n - i - 1, cmprI, cmprE);
      assert addresses + ([a] + rest) == (addresses + [a]) + rest;
      addresses := addresses + [a];
      pos := pos + 16 - elided;
      i := i + 1;
    }
    NothingToParse(b[pos..], cmprI, cmprE);
  }

  /** Reads exactly the addresses that fit the span, never past the end of the octets given. */
  method Deserialize(b: Bytes) returns (h: Header, consumed: nat)
    requires |b| >= 8
    ensures (h, consumed) == Decode(b)
  {
    consumed := Span(b);
    var addresses: seq<Ip> := [];
    if Count(b) > 0 {
      CountFits(b);
      addresses := ReadAddresses(b, Count(b), b[4] / 16, b[4] % 16);
    }
    h := Header(b[0], b[2], b[3], addresses);
  }

  // ---------------------------------------------------------------- one router

  datatype DropReason = MalformedHeader | RoutingLoop | HopLimitExceeded

  datatype Outcome = Deliver | Drop(reason: DropReason) | Forward

  /** Two of this router's addresses with another router's in between. */
  predicate Straddles(addresses: seq<Ip>, local: set<Ip>, i: nat, m: nat, j: nat) {
    i < m < j < |addresses| && addresses[i] in local && addresses[m] !in local && addresses[j] in local
  }

  /** The list, its current entry aside, comes back to this router. */
  ghost predicate LoopsBack(addresses: seq<Ip>, current: nat, local: set<Ip>) {
    exists i: nat, m: nat, j: nat :: Straddles(addresses, local, i, m, j) && current !in {i, m, j}
  }

  /** The entries a router looks at: it counts them in eight bits. */
  function Counted(addresses: seq<Ip>): seq<Ip> {
    addresses[..|addresses| % 256]
  }

  /** What a router with addresses `local` does with a packet addressed to it. */
  ghost function Judge(h: Header, destination: Ip, hopLimit: Byte, local: set<Ip>): Outcome {
    var next := |Counted(h.addresses)| - h.segmentsLeft;
    if h.segmentsLeft == 0 then Deliver
    else if next < 0 || IsMulticast(h.addresses[next]) || IsMulticast(destination) then Drop(MalformedHeader)
    else if LoopsBack(Counted(h.addresses), next, local) then Drop(RoutingLoop)
    else if hopLimit <= 1 then Drop(HopLimitExceeded)
    else Forward
  }

  /** The destination and the entry Segments Left points at change places. */
  function Exchange(h: Header, destination: Ip): (Header, Ip)
    requires 0 < h.segmentsLeft <= |Counted(h.addresses)|
  {
    var next := |Counted(h.addresses)| - h.segmentsLeft;
    (h.(segmentsLeft := h.segmentsLeft - 1, addresses := h.addresses[next := destination]), h.addresses[next])
  }

  /** A packet being source routed, as a router holds it. */
  class SourceRoutedPacket {
    var header: Header
    var destination: Ip
    var hopLimit: Byte

    constructor (header: Header, destination: Ip, hopLimit: Byte)
      ensures this.header == header && this.destination == destination && this.hopLimit == hopLimit
    {
      this.header, this.destination, this.hopLimit := header, destination, hopLimit;
    }

    method Process(local: set<Ip>) returns (outcome: Outcome)
      modifies this
      ensures outcome == Judge(old(header), old(destination), old(hopLimit), local)
      ensures if outcome == Forward
              then (header, destination) == Exchange(old(header), old(destination)) && hopLimit == old(hopLimit) - 1
              else header == old(header) && destination == old(destination) && hopLimit == old(hopLimit)
    {
      var addresses := Counted(header.addresses);
      if header.segmentsLeft == 0 {
        return Deliver;
      }
      if header.segmentsLeft > |addresses| {
        return Drop(MalformedHeader);
      }
      var next := |addresses| - header.segmentsLeft;
      var nextAddress := addresses[next];
      if IsMulticast(nextAddress) || IsMulticast(destination) {
        return Drop(MalformedHeader);
      }
      var sawLocal, sawOther := false, false;
      ghost var first, between := 0, 0;
      var i := 0;
      while i < |addresses|
        invariant 0 <= i <= |addresses|
        invariant forall a: nat, m: nat, j: nat :: j < i && next !in {a, m, j} ==> !Straddles(addresses, local, a, m, j)
        invariant !sawLocal ==> forall k :: 0 <= k < i && k != next ==> addresses[k] !in local
        invariant sawLocal ==> 0 <= first < i && first != next && addresses[first] in local
        invariant sawLocal && sawOther ==> first < between < i && between != next && addresses[between] !in local
        invariant sawLocal && !sawOther ==> forall k, m | 0 <= k < m < i && k != next && m != next ::
                                              addresses[k] in local ==> addresses[m] in local
      {
        if i != next {
          if addresses[i] in local {
            if sawLocal && sawOther {
              assert Straddles(addresses, local, first, between, i);
              return Drop(RoutingLoop);
            }
            sawLocal, sawOther := true, false;
            first := i;
          } else if sawLocal {
            if !sawOther { between := i; }
            sawOther := true;
          }
        }
        i := i + 1;
      }
      if hopLimit <= 1 {
        return Drop(HopLimitExceeded);
      }
      header := header.(segmentsLeft := header.segmentsLeft - 1, addresses := header.addresses[next := destination]);
      destination := nextAddress;
      hopLimit := hopLimit - 1;
      return Forward;
    }
  }
}
