/** Where each field stands on the wire, octet by octet and bit by bit, big end first: the routing header (section 3 of
    RFC 6554), the DIO and the DAO (section 6 of RFC 6550) and the discovery options (RFC 6997 and RFC 9854). */
module WireLayout {
  import opened Lollipop
  import opened Octets
  import opened OptionWalk
  import opened Paths
  import opened RplTypes
  import Srh = SourceRoutingHeader
  import Dio = DioCodec
  import Dao = DaoCodec

  /** Two octets, and four, as a number. */
  function Number16(b: Bytes, at: nat): nat
    requires at + 2 <= |b|
  {
    var high: nat, low: nat := b[at], b[at + 1];
    256 * high + low
  }

  function Number32(b: Bytes, at: nat): nat
    requires at + 4 <= |b|
  {
    0x1_0000 * Number16(b, at) + Number16(b, at + 2)
  }

  /** The number a flag contributes. */
  function Bit(set_: bool, weight: nat): nat {
    if set_ then weight else 0
  }

  ghost predicate StandsAt(b: Bytes, at: nat, piece: Bytes) {
    at + |piece| <= |b| && b[at..at + |piece|] == piece
  }

  lemma StandsFirst(piece: Bytes, rest: Bytes)
    ensures StandsAt(piece + rest, 0, piece)
  {
    Pieces([], piece, rest);
  }

  lemma StandsLater(first: Bytes, rest: Bytes, at: nat, piece: Bytes)
    requires StandsAt(rest, at, piece)
    ensures StandsAt(first + rest, |first| + at, piece)
  {
    var b, from := first + rest, |first| + at;
    assert b[from..from + |piece|] == rest[at..at + |piece|];
  }

  lemma WordSize(x: U16, y: U32)
    ensures |Put16(x)| == 2 && |Put32(y)| == 4
  {
  }

  lemma Word16Stands(b: Bytes, at: nat, x: U16)
    requires StandsAt(b, at, Put16(x))
    ensures at + 2 <= |b| && Number16(b, at) == x
  {
    var v := b[at..at + 2];
    assert b[at] == v[0] && b[at + 1] == v[1];
  }

  lemma Word32Stands(b: Bytes, at: nat, x: U32)
    requires StandsAt(b, at, Put32(x))
    ensures at + 4 <= |b| && Number32(b, at) == x
  {
    var v := b[at..at + 4];
    assert b[at] == v[0] && b[at + 1] == v[1] && b[at + 2] == v[2] && b[at + 3] == v[3];
  }

  // ---------------------------------------------------------------- the routing header

  /** How many octets address `i` of the list leaves out: eight if it, and with it every other but the last, or it
      alone being the last, is link-local. */
  ghost function LeftOut(addresses: seq<Ip>, i: nat): (octets: nat)
    requires i < |addresses|
    ensures octets == 0 || octets == 8
  {
    if i == |addresses| - 1 then if IsLinkLocal(addresses[i]) then 8 else 0
    else if forall j :: 0 <= j < |addresses| - 1 ==> IsLinkLocal(addresses[j]) then 8 else 0
  }

  lemma {:induction false} EntryAt(addresses: seq<Ip>, cmprI: Byte, cmprE: Byte, i: nat)
    requires cmprI < 16 && cmprE < 16 && i < |addresses|
    ensures var elided: Byte := if i == |addresses| - 1 then cmprE else cmprI;
            StandsAt(Srh.Entries(addresses, cmprI, cmprE), Times(i, 16 - cmprI), addresses[i][elided..])
  {
    var first := addresses[0][if |addresses| == 1 then cmprE else cmprI..];
    var rest := Srh.Entries(addresses[1..], cmprI, cmprE);
    assert Srh.Entries(addresses, cmprI, cmprE) == first + rest;
    hide Srh.Entries;
    var elided: Byte := if i == |addresses| - 1 then cmprE else cmprI;
    if i > 0 {
      EntryAt(addresses[1..], cmprI, cmprE, i - 1);
      hide StandsAt;
      StandsLater(first, rest, Times(i - 1, 16 - cmprI), addresses[i][elided..]);
    } else {
      StandsFirst(first, rest);
    }
  }

  /** n lots of `size`. */
  function Times(n: nat, size: nat): nat {
    if n == 0 then 0 else size + Times(n - 1, size)
  }

  lemma {:induction false} TimesIs(n: nat, size: nat)
    ensures Times(n, size) == n * size
  {
    if n > 0 {
      TimesIs(n - 1, size);
      assert n * size == (n - 1) * size + size;
    }
  }

  /** Next Header, Hdr Ext Len in units of eight octets beyond the first, Routing Type, Segments Left, CmprI and CmprE
      in one octet, then no Pad and reserved zeros. */
  lemma RoutingHeaderOctets(h: Srh.Header)
    requires Srh.Fits(h) && h.addresses != []
    ensures var b, n := Srh.Encode(h), |h.addresses|;
            && |b| == 8 + (n - 1) * (16 - LeftOut(h.addresses, 0)) + (16 - LeftOut(h.addresses, n - 1))
            && b[0] == h.nextHeader && b[2] == h.typeRouting && b[3] == h.segmentsLeft
            && (var units: int := b[1]; 8 * (units + 1) == |b|)
            && b[4] == Bit(n > 1 && LeftOut(h.addresses, 0) == 8, 128) + LeftOut(h.addresses, n - 1)
            && b[5] == 0 && b[6] == 0 && b[7] == 0
  {
    Srh.SizeIsWhole(h.addresses);
    Srh.RoundTrip(h, []);
    ElidesWhatItLeavesOut(h.addresses, 0);
    ElidesWhatItLeavesOut(h.addresses, |h.addresses| - 1);
    hide Srh.Entries, Srh.CmprI, Srh.CmprE, LeftOut, Srh.Decode;
  }

  /** The addresses follow one another, each less what it leaves out. */
  lemma RoutingHeaderAddress(h: Srh.Header, i: nat)
    requires Srh.Fits(h) && i < |h.addresses|
    ensures var left := LeftOut(h.addresses, i);
            StandsAt(Srh.Encode(h), 8 + i * (16 - LeftOut(h.addresses, 0)), h.addresses[i][left..])
  {
    var a, b := h.addresses, Srh.Encode(h);
    var cmprI, cmprE := Srh.CmprI(a), Srh.CmprE(a);
    ElidesWhatItLeavesOut(a, i);
    ElidesWhatItLeavesOut(a, 0);
    EntryAt(a, cmprI, cmprE, i);
    var entries := Srh.Entries(a, cmprI, cmprE);
    var head := b[..8];
    assert |head| == 8 && b == head + entries by { hide Srh.Entries, LeftOut, StandsAt, Srh.CmprI, Srh.CmprE, Times; }
    hide Srh.Encode, Srh.Entries, Srh.CmprI, Srh.CmprE, StandsAt, LeftOut;
    TimesIs(i, 16 - cmprI);
    StandsLater(head, entries, Times(i, 16 - cmprI), a[i][LeftOut(a, i)..]);
    assert i == 0 || cmprI == LeftOut(a, 0);
  }

  lemma ElidesWhatItLeavesOut(a: seq<Ip>, i: nat)
    requires i < |a|
    ensures LeftOut(a, i) == if i == |a| - 1 then Srh.CmprE(a) else Srh.CmprI(a)
    ensures |a| == 1 ==> Srh.CmprI(a) == 0
  {
  }

  // ---------------------------------------------------------------- the DIO

  /** RPLInstanceID, Version, Rank, then G, MOP and Preference in one octet, DTSN, two zeros and the DODAGID. */
  lemma DioBaseOctets(d: Dio.Dio)
    requires Dio.Settable(d)
    ensures var b := Dio.Base(d);
            && |b| == 24 && b[0] == d.instanceId && b[1] == d.version && Number16(b, 2) == d.rank
            && b[4] == Bit(d.grounded, 128) + 8 * d.mop + d.preference && b[5] == d.dtsn && b[6] == 0 && b[7] == 0
            && b[8..24] == d.dodagId
  {
    var b := Dio.Base(d);
    WordSize(d.rank, 0);
    hide Put16;
    assert b[2..4] == Put16(d.rank);
    Word16Stands(b, 2, d.rank);
  }

  /** What is written is that base and then the options, each under its type and length. */
  lemma DioOctets(d: Dio.Dio)
    requires Dio.Settable(d)
    ensures (forall t :: t in Dio.OptionsOf(d) ==> Writable(t))
            && Dio.Wire(d) == Dio.Base(d) + AllOnWire(Dio.OptionsOf(d))
  {
    Dio.OptionsRead(d);
    hide Dio.Base, Dio.OptionsOf, AllOnWire;
  }

  lemma DioOptions(d: Dio.Dio)
    requires Dio.Settable(d)
    ensures d.dagConf.Some? ==> Tlv(4, Dio.DagConfBody(d.dagConf.value)) in Dio.OptionsOf(d)
    ensures d.pathEtx.Some? ==> Tlv(2, Dio.EtxBody(d.pathEtx.value)) in Dio.OptionsOf(d)
    ensures d.lql.Some? ==> Tlv(2, Dio.LqlBody(d.lql.value)) in Dio.OptionsOf(d)
    ensures d.prefixInfo.Some? ==> Tlv(8, Dio.PrefixBody(d.prefixInfo.value)) in Dio.OptionsOf(d)
    ensures d.rreq.Some? ==> Tlv(11, Dio.RouteBody(d.rreq.value, d.rreq.value.last, d.dodagId)) in Dio.OptionsOf(d)
    ensures d.rrep.Some? ==> Tlv(12, Dio.RouteBody(d.rrep.value, 4 * d.rrep.value.last, d.dodagId)) in Dio.OptionsOf(d)
    ensures d.rdo.Some? ==> Tlv(10, Dio.RdoBody(d.rdo.value, d.dodagId)) in Dio.OptionsOf(d)
    ensures forall a :: a in d.arts ==> Tlv(13, Dio.ArtBody(a)) in Dio.OptionsOf(d)
    ensures forall t :: t in d.targets ==> Tlv(5, Dio.TargetBody(t)) in Dio.OptionsOf(d)
  {
    ArtsAreThere(d.arts);
    TargetsAreThere(d.targets);
    hide Dio.RouteBody, Dio.RdoBody, Dio.ArtBody, Dio.TargetBody, Dio.ArtOptions, Dio.TargetOptions;
  }

  lemma {:induction false} ArtsAreThere(arts: seq<Dio.Art>)
    ensures forall t :: t in Dio.ArtOptions(arts) ==> t.kind == 13
    ensures forall a :: a in arts ==> Tlv(13, Dio.ArtBody(a)) in Dio.ArtOptions(arts)
  {
    if arts != [] {
      hide Dio.ArtBody;
      ArtsAreThere(arts[1..]);
      assert arts == [arts[0]] + arts[1..];
    }
  }

  lemma {:induction false} TargetsAreThere(targets: seq<Dio.TargetOption>)
    ensures forall t :: t in Dio.TargetOptions(targets) ==> t.kind == 5
    ensures forall t :: t in targets ==> Tlv(5, Dio.TargetBody(t)) in Dio.TargetOptions(targets)
  {
    if targets != [] {
      hide Dio.TargetBody;
      TargetsAreThere(targets[1..]);
      assert targets == [targets[0]] + targets[1..];
    }
  }

  lemma DagConfOctets(c: Dio.DagConf)
    ensures var b := Dio.DagConfBody(c);
            && |b| == 14 && b[0] == c.flags && b[1] == c.doublings && b[2] == c.intervalMin && b[3] == c.redundancy
            && Number16(b, 4) == c.maxRankIncrease && Number16(b, 6) == c.minHopRankIncrease && Number16(b, 8) == c.ocp
            && b[10] == 0 && b[11] == c.defaultLifetime && Number16(b, 12) == c.lifetimeUnit
  {
    var b := Dio.DagConfBody(c);
    WordSize(c.maxRankIncrease, 0);
    WordSize(c.minHopRankIncrease, 0);
    WordSize(c.ocp, 0);
    WordSize(c.lifetimeUnit, 0);
    hide Put16;
    assert b[4..6] == Put16(c.maxRankIncrease) && b[6..8] == Put16(c.minHopRankIncrease);
    assert b[8..10] == Put16(c.ocp) && b[12..14] == Put16(c.lifetimeUnit);
    Word16Stands(b, 4, c.maxRankIncrease);
    Word16Stands(b, 6, c.minHopRankIncrease);
    Word16Stands(b, 8, c.ocp);
    Word16Stands(b, 12, c.lifetimeUnit);
  }

  /** ETX and LQL each in a Metric Container of their own, two octets of value after type, flags and length. */
  lemma MetricOctets(etx: U16, lql: Byte)
    requires lql <= 7
    ensures var b := Dio.EtxBody(etx);
            |b| == 6 && b[0] == 7 && b[1] == 0 && b[2] == 0 && b[3] == 2 && Number16(b, 4) == etx
    ensures Dio.LqlBody(lql) == [6, 0, 0, 2, 0, 16 * lql + 1]
  {
    var b := Dio.EtxBody(etx);
    WordSize(etx, 0);
    hide Put16;
    assert b[4..6] == Put16(etx);
    Word16Stands(b, 4, etx);
  }

  lemma PrefixOctets(p: Dio.PrefixInfo)
    ensures var b := Dio.PrefixBody(p);
            && |b| == 26 && b[0] == p.length && b[1] == Bit(p.onLink, 128) + Bit(p.autonomous, 64)
            && Number32(b, 2) == p.validLifetime && Number32(b, 6) == p.preferredLifetime && b[10..26] == p.prefix
  {
    var b := Dio.PrefixBody(p);
    WordSize(0, p.validLifetime);
    WordSize(0, p.preferredLifetime);
    hide Put32;
    assert b[2..6] == Put32(p.validLifetime) && b[6..10] == Put32(p.preferredLifetime);
    Word32Stands(b, 2, p.validLifetime);
    Word32Stands(b, 6, p.preferredLifetime);
  }

  /** Entry k of a vector stands after k others, less its first `compr` octets. */
  lemma {:induction false} TailAt(vector: seq<Ip>, compr: Byte, k: nat)
    requires compr < 16 && k < |vector|
    ensures StandsAt(Dio.Tails(vector, compr), Times(k, 16 - compr), vector[k][compr..])
  {
    var first, rest := vector[0][compr..], Dio.Tails(vector[1..], compr);
    assert Dio.Tails(vector, compr) == first + rest;
    hide Dio.Tails;
    if k > 0 {
      TailAt(vector[1..], compr, k - 1);
      hide StandsAt;
      StandsLater(first, rest, Times(k - 1, 16 - compr), vector[k][compr..]);
    } else {
      StandsFirst(first, rest);
    }
  }

  /** What entries leave out: the first eight octets, if they all share them with the DODAGID. */
  ghost predicate SharePrefix(vector: seq<Ip>, dodagId: Ip) {
    forall a :: a in vector ==> a[..8] == dodagId[..8]
  }

  /** RREQ and RREP: S or G, H, Compr and the high bit of L; the low bit of L and RankLimit; Orig SeqNo, or Delta in the
      upper six bits; the Address Vector. */
  lemma RouteOctets(r: Dio.Route, last: Byte, dodagId: Ip)
    requires Dio.RouteSettable(r, dodagId)
    ensures var b := Dio.RouteBody(r, last, dodagId);
            && |b| >= 3 && b[2] == last
            && b[0] == Bit(r.flag, 128) + Bit(r.hopByHop, 64)
                       + Bit(r.vector != [] && SharePrefix(r.vector, dodagId), 16) + Bit(r.lifetime >= 2, 1)
            && b[1] == Bit(r.lifetime == 1 || r.lifetime == 3, 128) + r.rankLimit
  {
    hide Dio.Tails;
  }

  lemma RouteAddress(r: Dio.Route, last: Byte, dodagId: Ip, k: nat)
    requires k < |r.vector|
    ensures var compr := if SharePrefix(r.vector, dodagId) then 8 else 0;
            StandsAt(Dio.RouteBody(r, last, dodagId), 3 + k * (16 - compr), r.vector[k][compr..])
  {
    var compr := Dio.Elided(r.vector, dodagId);
    TailAt(r.vector, compr, k);
    TimesIs(k, 16 - compr);
    StandsLater(Dio.RouteHead(r, compr, last), Dio.Tails(r.vector, compr), Times(k, 16 - compr), r.vector[k][compr..]);
  }

  /** P2P-RDO: R, H, N and Compr; L and MaxRank or NH; TargetAddr and the vector, each less what it leaves out. */
  lemma RdoOctets(r: Dio.Rdo, dodagId: Ip)
    requires Dio.RdoSettable(r, dodagId)
    ensures var b := Dio.RdoBody(r, dodagId);
            var compr := if SharePrefix([r.target] + r.vector, dodagId) then 8 else 0;
            && |b| >= 2 && b[0] == Bit(r.reply, 128) + Bit(r.hopByHop, 64) + 16 * r.numRoutes + compr
            && b[1] == 64 * r.lifetime + r.maxRankOrNh && StandsAt(b, 2, r.target[compr..])
  {
    var compr := Dio.RdoElided(r.target, r.vector, dodagId);
    SharedByAll(r.target, r.vector, dodagId);
    var head, tails := Dio.RdoHead(r, compr), Dio.Tails(r.vector, compr);
    StandsFirst(r.target[compr..], tails);
    StandsLater(head, r.target[compr..] + tails, 0, r.target[compr..]);
    hide Dio.Tails, StandsAt;
  }

  lemma RdoAddress(r: Dio.Rdo, dodagId: Ip, k: nat)
    requires k < |r.vector|
    ensures var compr := if SharePrefix([r.target] + r.vector, dodagId) then 8 else 0;
            StandsAt(Dio.RdoBody(r, dodagId), 18 - compr + k * (16 - compr), r.vector[k][compr..])
  {
    var compr := Dio.RdoElided(r.target, r.vector, dodagId);
    SharedByAll(r.target, r.vector, dodagId);
    RdoTailAt(r, compr, k);
  }

  lemma RdoTailAt(r: Dio.Rdo, compr: Byte, k: nat)
    requires compr < 16 && k < |r.vector|
    ensures StandsAt(Dio.RdoHead(r, compr) + (r.target[compr..] + Dio.Tails(r.vector, compr)),
                     18 - compr + k * (16 - compr), r.vector[k][compr..])
  {
    var head, target, tails, piece := Dio.RdoHead(r, compr), r.target[compr..], Dio.Tails(r.vector, compr),
      r.vector[k][compr..];
    TailAt(r.vector, compr, k);
    TimesIs(k, 16 - compr);
    assert |head| == 2;
    hide Dio.RdoHead, Dio.Tails, StandsAt, Times;
    StandsLater(target, tails, Times(k, 16 - compr), piece);
    StandsLater(head, target + tails, |target| + Times(k, 16 - compr), piece);
  }

  lemma SharedByAll(target: Ip, vector: seq<Ip>, dodagId: Ip)
    ensures SharePrefix([target] + vector, dodagId) <==> target[..8] == dodagId[..8] && SharePrefix(vector, dodagId)
  {
    assert forall a :: a in [target] + vector <==> a == target || a in vector;
  }

  /** A vector may be as long as an option of 255 octets can carry and, in a P2P-RDO, NH can count: no less, no more. */
  lemma LongestVectors(compr: Byte, n: nat)
    requires compr < 16
    ensures n <= Dio.MaxEntries(compr) <==> 3 + n * (16 - compr) <= 255
    ensures n <= Dio.P2pMaxEntries(compr) <==> 18 - compr + n * (16 - compr) <= 255 && n <= 63
  {
    GoesIn(252, 16 - compr, n);
    GoesIn(253, 16 - compr, n + 1);
    assert (n + 1) * (16 - compr) == n * (16 - compr) + (16 - compr);
    hide Whole;
  }

  lemma GoesIn(x: nat, d: nat, n: nat)
    requires d > 0
    ensures n <= Whole(x, d) <==> n * d <= x
  {
    var q, r := x / d, x % d;
    assert q * d + r == x;
    if n <= q {
      assert n * d <= q * d;
    } else {
      assert (q + 1) * d <= n * d;
    }
  }

  lemma ArtAndTargetOctets(a: Dio.Art, t: Dio.TargetOption)
    requires a.prefixLength < 128
    ensures var b := Dio.ArtBody(a);
            |b| == 18 && b[0] == a.destSeqNo && b[1] == a.prefixLength && b[2..] == a.target
    ensures var b := Dio.TargetBody(t); |b| == 18 && b[0] == 0 && b[1] == t.prefixLength && b[2..] == t.target
  {
  }

  // ---------------------------------------------------------------- the DAO

  /** RPLInstanceID, K and D, a zero, DAOSequence, the DODAGID if there is one, and 42 octets for each target. */
  lemma DaoOctets(d: Dao.Dao)
    ensures var b, named := Dao.DaoWire(d), d.dodagId != UNSPECIFIED;
            && |b| == (if named then 20 else 4) + 42 * (|d.additional| + 1)
            && b[0] == d.instanceId && b[1] == Bit(d.ackRequested, 128) + Bit(named, 64)
            && b[2] == 0 && b[3] == d.sequenceNumber && (named ==> StandsAt(b, 4, d.dodagId))
  {
    Dao.GroupsOccupy(Dao.Groups(d), d.parent);
    hide Dao.GroupsWire;
  }

  /** Each target in a Target option and a Transit Information option of its own, the latter with Path Sequence, Path
      Lifetime and the one parent. */
  lemma DaoTargetOctets(d: Dao.Dao, k: nat)
    requires k <= |d.additional|
    ensures var base := if d.dodagId == UNSPECIFIED then 4 else 20;
            StandsAt(Dao.DaoWire(d), base + 42 * k, GroupOctets(([d.primary] + d.additional)[k], d.parent))
  {
    var groups := Dao.Groups(d);
    GroupAt(groups, d.parent, k);
    var base := Dao.DaoBase(d);
    assert |base| == if d.dodagId == UNSPECIFIED then 4 else 20;
    hide Dao.DaoBase, Dao.GroupsWire, GroupOctets, StandsAt;
    StandsLater(base, Dao.GroupsWire(groups, d.parent), 42 * k, GroupOctets(groups[k], d.parent));
  }

  ghost function GroupOctets(g: Dao.Group, parent: Ip): (octets: Bytes)
    ensures |octets| == 42
  {
    [5, 18, 0, g.prefixLength] + g.target + [6, 20, 0, 0, g.pathSequence, g.pathLifetime] + parent
  }

  lemma GroupIs(g: Dao.Group, parent: Ip)
    ensures Writable(Dao.TargetTlv(g)) && Writable(Dao.TransitTlv(g, parent))
    ensures OnWire(Dao.TargetTlv(g)) + OnWire(Dao.TransitTlv(g, parent)) == GroupOctets(g, parent)
  {
  }

  lemma {:induction false} GroupAt(groups: seq<Dao.Group>, parent: Ip, k: nat)
    requires k < |groups|
    ensures StandsAt(Dao.GroupsWire(groups, parent), 42 * k, GroupOctets(groups[k], parent))
  {
    Dao.GroupFirst(groups, parent);
    GroupIs(groups[0], parent);
    var first, rest := GroupOctets(groups[0], parent), Dao.GroupsWire(groups[1..], parent);
    hide Dao.GroupsWire, GroupOctets, OnWire;
    if k > 0 {
      GroupAt(groups[1..], parent, k - 1);
      hide StandsAt;
      StandsLater(first, rest, 42 * (k - 1), GroupOctets(groups[k], parent));
    } else {
      StandsFirst(first, rest);
    }
  }

  // ---------------------------------------------------------------- reading

  /** Whatever Compr says, entry k of a vector read is its own octets after the first Compr of the DODAGID. */
  lemma {:induction false} VectorEntry(tails: Bytes, n: nat, compr: Byte, dodagId: Ip, k: nat)
    requires compr < 16 && |tails| >= Dio.Taking(n, compr) && k < n
    ensures |Dio.Rebuilt(tails, n, compr, dodagId)| == n
    ensures var a := Dio.Rebuilt(tails, n, compr, dodagId)[k];
            a[..compr] == dodagId[..compr] && StandsAt(tails, Times(k, 16 - compr), a[compr..])
  {
    var size: nat := 16 - compr;
    var first, rest := tails[..size], tails[size..];
    var rebuilt := Dio.Rebuilt(tails, n, compr, dodagId);
    assert tails == first + rest && |rest| >= Dio.Taking(n - 1, compr);
    assert rebuilt == [dodagId[..compr] + first] + Dio.Rebuilt(rest, n - 1, compr, dodagId);
    hide Dio.Rebuilt, Dio.Taking;
    if k > 0 {
      VectorEntry(rest, n - 1, compr, dodagId, k - 1);
      hide StandsAt;
      StandsLater(first, rest, Times(k - 1, size), rebuilt[k][compr..]);
    } else {
      StandsFirst(first, rest);
      if n > 1 { VectorEntry(rest, n - 1, compr, dodagId, 0); } else { NothingRebuilt(rest, compr, dodagId); }
    }
  }

  lemma NothingRebuilt(tails: Bytes, compr: Byte, dodagId: Ip)
    requires compr < 16
    ensures Dio.Taking(0, compr) == 0 && Dio.Rebuilt(tails, 0, compr, dodagId) == []
  {
  }

  /** What an address leaves out reads as: the link-local prefix, cut short or filled up with zeros. */
  ghost predicate BeginsLinkLocal(a: Ip, elided: Byte) {
    forall j: nat :: j < elided && j < 16 ==> a[j] == if j == 0 then 0xfe else if j == 1 then 0x80 else 0
  }

  /** Entry k of n stands in its place, after such a beginning. */
  ghost predicate ReadsFrom(a: Ip, b: Bytes, n: nat, cmprI: Byte, cmprE: Byte, k: nat)
    requires cmprI < 16 && cmprE < 16
  {
    var elided: Byte := if k == n - 1 then cmprE else cmprI;
    BeginsLinkLocal(a, elided) && StandsAt(b, Times(k, 16 - cmprI), a[elided..])
  }

  lemma ReadsLater(a: Ip, b: Bytes, n: nat, cmprI: Byte, cmprE: Byte, k: nat)
    requires cmprI < 16 && cmprE < 16 && |b| >= 16 - cmprI && k < n && ReadsFrom(a, b[16 - cmprI..], n, cmprI, cmprE, k)
    ensures ReadsFrom(a, b, n + 1, cmprI, cmprE, k + 1)
  {
    var first, rest := b[..16 - cmprI], b[16 - cmprI..];
    assert b == first + rest;
    hide StandsAt, BeginsLinkLocal;
    StandsLater(first, rest, Times(k, 16 - cmprI), a[if k == n - 1 then cmprE else cmprI..]);
  }

  /** Whatever CmprI and CmprE say, an address read from a routing header is its own octets after such a beginning. */
  lemma {:induction false} AddressEntry(b: Bytes, n: nat, cmprI: Byte, cmprE: Byte, k: nat)
    requires cmprI < 16 && cmprE < 16 && |b| >= Srh.Room(n, cmprI, cmprE) && k < n
    ensures |Srh.Parse(b, n, cmprI, cmprE)| == n
    ensures ReadsFrom(Srh.Parse(b, n, cmprI, cmprE)[k], b, n, cmprI, cmprE, k)
  {
    if n == 1 {
      LastAddress(b, cmprI, cmprE);
    } else {
      FirstAddress(b, n, cmprI, cmprE);
      var rest, later := b[16 - cmprI..], if k > 0 then k - 1 else 0;
      hide Srh.Parse, Srh.Room, ReadsFrom;
      AddressEntry(rest, n - 1, cmprI, cmprE, later);
      ReadsLater(Srh.Parse(rest, n - 1, cmprI, cmprE)[later], b, n - 1, cmprI, cmprE, later);
    }
  }

  lemma FirstAddress(b: Bytes, n: nat, cmprI: Byte, cmprE: Byte)
    requires cmprI < 16 && cmprE < 16 && |b| >= Srh.Room(n, cmprI, cmprE) && n > 1
    ensures var first, rest, parsed := b[..16 - cmprI], b[16 - cmprI..], Srh.Parse(b, n, cmprI, cmprE);
            && |rest| >= Srh.Room(n - 1, cmprI, cmprE)
            && |parsed| > 0 && parsed == [parsed[0]] + Srh.Parse(rest, n - 1, cmprI, cmprE)
            && ReadsFrom(parsed[0], b, n, cmprI, cmprE, 0)
  {
    var first, rest := b[..16 - cmprI], b[16 - cmprI..];
    RestoredPrefix(cmprI, first);
    StandsFirst(first, rest);
    assert b == first + rest;
    hide StandsAt, BeginsLinkLocal;
  }

  lemma LastAddress(b: Bytes, cmprI: Byte, cmprE: Byte)
    requires cmprI < 16 && cmprE < 16 && |b| >= 16 - cmprE
    ensures var parsed := Srh.Parse(b, 1, cmprI, cmprE);
            |parsed| == 1 && ReadsFrom(parsed[0], b, 1, cmprI, cmprE, 0)
  {
    RestoredPrefix(cmprE, b[..16 - cmprE]);
    hide BeginsLinkLocal;
  }

  lemma RestoredPrefix(elided: Byte, tail: Bytes)
    requires elided < 16 && |tail| == 16 - elided
    ensures Srh.Restore(elided, tail)[elided..] == tail && BeginsLinkLocal(Srh.Restore(elided, tail), elided)
  {
  }
}
