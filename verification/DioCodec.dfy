/** The DIO: what Serialize writes, what Deserialize reads back, option by option. */
module DioCodec {
  import opened Lollipop
  import opened Octets
  import opened OptionWalk
  import opened Paths
  import opened RplTypes

  const OPTION_METRIC_CONTAINER: Byte := 2
  const OPTION_DAG_CONF: Byte := 4
  const OPTION_TARGET: Byte := 5
  const OPTION_PREFIX_INFO: Byte := 8
  const OPTION_P2P_RDO: Byte := 10
  const OPTION_AODV_RREQ: Byte := 11
  const OPTION_AODV_RREP: Byte := 12
  const OPTION_AODV_ART: Byte := 13

  const MC_LQL: Byte := 6
  const MC_ETX: Byte := 7
  const LQL_WORST: Byte := 7

  const BASE_SIZE := 24

  datatype DagConf = DagConf(
    flags: Byte, doublings: Byte, intervalMin: Byte, redundancy: Byte, maxRankIncrease: U16,
    minHopRankIncrease: U16, ocp: U16, defaultLifetime: Byte, lifetimeUnit: U16)

  datatype PrefixInfo = PrefixInfo(
    length: Byte, onLink: bool, autonomous: bool, validLifetime: U32, preferredLifetime: U32, prefix: Ip)

  /** The RREQ and RREP options share a layout: the first flag is S or G, the last octet Orig SeqNo or Delta. */
  datatype Route = Route(
    flag: bool, hopByHop: bool, compr: Byte, lifetime: Byte, rankLimit: Byte, last: Byte, vector: seq<Ip>)

  datatype Art = Art(destSeqNo: Byte, prefixLength: Byte, target: Ip)

  datatype Rdo = Rdo(
    reply: bool, hopByHop: bool, numRoutes: Byte, compr: Byte, lifetime: Byte, maxRankOrNh: Byte, target: Ip,
    vector: seq<Ip>)

  datatype TargetOption = TargetOption(prefixLength: Byte, target: Ip)

  datatype Dio = Dio(
    instanceId: Byte, version: Byte, rank: U16, grounded: bool, mop: Byte, preference: Byte, dtsn: Byte, dodagId: Ip,
    dagConf: Option<DagConf>, pathEtx: Option<U16>, lql: Option<Byte>, prefixInfo: Option<PrefixInfo>,
    rreq: Option<Route>, rrep: Option<Route>, arts: seq<Art>, rdo: Option<Rdo>, targets: seq<TargetOption>)

  // ---------------------------------------------------------------- address vectors

  function Elided(vector: seq<Ip>, dodagId: Ip): (compr: Byte)
    ensures compr == 0 || compr == 8
  {
    if vector != [] && forall a :: a in vector ==> a[..8] == dodagId[..8] then 8 else 0
  }

  function RdoElided(target: Ip, vector: seq<Ip>, dodagId: Ip): (compr: Byte)
    ensures compr == 0 || compr == 8
  {
    if target[..8] == dodagId[..8] && forall a :: a in vector ==> a[..8] == dodagId[..8] then 8 else 0
  }

  function Tails(vector: seq<Ip>, compr: Byte): Bytes
    requires compr < 16
  {
    if vector == [] then [] else vector[0][compr..] + Tails(vector[1..], compr)
  }

  function Rebuilt(tails: Bytes, n: nat, compr: Byte, dodagId: Ip): seq<Ip>
    requires compr < 16 && |tails| >= Taking(n, compr)
  {
    if n == 0 then []
    else [dodagId[..compr] + tails[..16 - compr]] + Rebuilt(tails[16 - compr..], n - 1, compr, dodagId)
  }

  function Taking(n: nat, compr: Byte): nat
    requires compr < 16
  {
    if n == 0 then 0 else 16 - compr + Taking(n - 1, compr)
  }

  lemma {:induction false} TakingIs(n: nat, compr: Byte)
    requires compr < 16
    ensures Taking(n, compr) == n * (16 - compr)
  {
    if n > 0 {
      TakingIs(n - 1, compr);
      assert n * (16 - compr) == (n - 1) * (16 - compr) + (16 - compr);
    }
  }

  lemma {:induction false} TailsRebuild(vector: seq<Ip>, compr: Byte, dodagId: Ip)
    requires compr < 16 && forall a :: a in vector ==> a[..compr] == dodagId[..compr]
    ensures |Tails(vector, compr)| == Taking(|vector|, compr)
    ensures Rebuilt(Tails(vector, compr), |vector|, compr, dodagId) == vector
  {
    if vector != [] {
      TailsRebuild(vector[1..], compr, dodagId);
      var tails := Tails(vector, compr);
      assert tails[..16 - compr] == vector[0][compr..] && tails[16 - compr..] == Tails(vector[1..], compr);
      assert vector[0] in vector;
      assert vector[0] == vector[0][..compr] + vector[0][compr..];
    }
  }

  // ---------------------------------------------------------------- options as written

  function DagConfBody(c: DagConf): Bytes {
    [c.flags, c.doublings, c.intervalMin, c.redundancy] + Put16(c.maxRankIncrease) + Put16(c.minHopRankIncrease)
    + Put16(c.ocp) + [0, c.defaultLifetime] + Put16(c.lifetimeUnit)
  }

  function EtxBody(pathEtx: U16): Bytes {
    [MC_ETX, 0, 0, 2] + Put16(pathEtx)
  }

  function LqlBody(lql: Byte): Bytes {
    [MC_LQL, 0, 0, 2, 0, (lql * 16 + 1) % 256]
  }

  function PrefixBody(p: PrefixInfo): Bytes {
    [p.length, (if p.onLink then 0x80 else 0) + (if p.autonomous then 0x40 else 0)]
    + Put32(p.validLifetime) + Put32(p.preferredLifetime) + p.prefix
  }

  /** 'L' straddles the two flag octets: its high bit ends the first, its low bit begins the second. */
  function RouteHead(r: Route, compr: Byte, last: Byte): Bytes
    requires compr < 16
  {
    [(if r.flag then 0x80 else 0) + (if r.hopByHop then 0x40 else 0) + compr * 2 + r.lifetime / 2 % 2,
     r.lifetime % 2 * 128 + r.rankLimit % 128, last]
  }

  function RouteBody(r: Route, last: Byte, dodagId: Ip): Bytes {
    var compr := Elided(r.vector, dodagId);
    RouteHead(r, compr, last) + Tails(r.vector, compr)
  }

  function ArtBody(a: Art): Bytes {
    [a.destSeqNo, a.prefixLength % 128] + a.target
  }

  function RdoHead(r: Rdo, compr: Byte): Bytes
    requires compr < 16
  {
    [(if r.reply then 0x80 else 0) + (if r.hopByHop then 0x40 else 0) + r.numRoutes % 4 * 16 + compr,
     r.lifetime % 4 * 64 + r.maxRankOrNh % 64]
  }

  function RdoBody(r: Rdo, dodagId: Ip): Bytes {
    var compr := RdoElided(r.target, r.vector, dodagId);
    RdoHead(r, compr) + (r.target[compr..] + Tails(r.vector, compr))
  }

  function TargetBody(t: TargetOption): Bytes {
    [0, t.prefixLength] + t.target
  }

  function ArtOptions(arts: seq<Art>): seq<Tlv> {
    if arts == [] then [] else [Tlv(OPTION_AODV_ART, ArtBody(arts[0]))] + ArtOptions(arts[1..])
  }

  function TargetOptions(targets: seq<TargetOption>): seq<Tlv> {
    if targets == [] then [] else [Tlv(OPTION_TARGET, TargetBody(targets[0]))] + TargetOptions(targets[1..])
  }

  function DagConfOption(d: Dio): seq<Tlv> {
    if d.dagConf.Some? then [Tlv(OPTION_DAG_CONF, DagConfBody(d.dagConf.value))] else []
  }

  function EtxOption(d: Dio): seq<Tlv> {
    if d.pathEtx.Some? then [Tlv(OPTION_METRIC_CONTAINER, EtxBody(d.pathEtx.value))] else []
  }

  function LqlOption(d: Dio): seq<Tlv> {
    if d.lql.Some? then [Tlv(OPTION_METRIC_CONTAINER, LqlBody(d.lql.value))] else []
  }

  function PrefixOption(d: Dio): seq<Tlv> {
    if d.prefixInfo.Some? then [Tlv(OPTION_PREFIX_INFO, PrefixBody(d.prefixInfo.value))] else []
  }

  function RreqOption(d: Dio): seq<Tlv> {
    if d.rreq.Some? then [Tlv(OPTION_AODV_RREQ, RouteBody(d.rreq.value, d.rreq.value.last, d.dodagId))] else []
  }

  /** Delta takes the top six bits of its octet. */
  function RrepOption(d: Dio): seq<Tlv> {
    if d.rrep.Some? then [Tlv(OPTION_AODV_RREP, RouteBody(d.rrep.value, d.rrep.value.last % 64 * 4, d.dodagId))] else []
  }

  function RdoOption(d: Dio): seq<Tlv> {
    if d.rdo.Some? then [Tlv(OPTION_P2P_RDO, RdoBody(d.rdo.value, d.dodagId))] else []
  }

  /** The options Serialize writes, in its order. */
  function OptionsOf(d: Dio): seq<Tlv> {
    PlainOptions(d)
    + (RreqOption(d) + (RrepOption(d) + (ArtOptions(d.arts) + (RdoOption(d) + TargetOptions(d.targets)))))
  }

  function PlainOptions(d: Dio): seq<Tlv> {
    DagConfOption(d) + (EtxOption(d) + (LqlOption(d) + PrefixOption(d)))
  }

  function Base(d: Dio): Bytes {
    [d.instanceId, d.version] + Put16(d.rank)
    + [(if d.grounded then 0x80 else 0) + d.mop % 8 * 8 + d.preference % 8, d.dtsn, 0, 0] + d.dodagId
  }

  // ---------------------------------------------------------------- options as read

  function ReadDagConf(b: Bytes): DagConf
    requires |b| == 14
  {
    DagConf(b[0], b[1], b[2], b[3], Get16(b[4..6]), Get16(b[6..8]), Get16(b[8..10]), b[11], Get16(b[12..14]))
  }

  function ReadPrefix(b: Bytes): PrefixInfo
    requires |b| == 26
  {
    PrefixInfo(b[0], b[1] / 128 == 1, b[1] / 64 % 2 == 1, Get32(b[2..6]), Get32(b[6..10]), b[10..26])
  }

  function MaxEntries(compr: Byte): nat
    requires compr < 16
  {
    Whole(252, 16 - compr)
  }

  function P2pMaxEntries(compr: Byte): nat
    requires compr < 16
  {
    var entries := Whole(253, 16 - compr) - 1;
    if entries < 63 then entries else 63
  }

  /** How many entries of 16 - Compr octets fill x octets, if any number does. */
  function Blocks(x: nat, compr: Byte): (n: Option<nat>)
    requires compr < 16
    ensures n.Some? ==> Taking(n.value, compr) == x
  {
    var size: nat := 16 - compr;
    if Rest(x, size) != 0 then None
    else
      TakingIs(Whole(x, size), compr);
      Some(Whole(x, size))
  }

  /** None for an option whose length does not match its Compr. */
  function ReadRoute(b: Bytes, delta: bool, dodagId: Ip): Option<Route>
    requires |b| >= 3
  {
    var compr := b[0] / 2 % 16;
    var n := Blocks(|b| - 3, compr);
    if n.None? || n.value > MaxEntries(compr) then None
    else Some(RouteFrom(b[0], b[1], if delta then b[2] / 4 else b[2], Rebuilt(b[3..], n.value, compr, dodagId)))
  }

  function RouteFrom(flags: Byte, limits: Byte, last: Byte, vector: seq<Ip>): Route {
    Route(flags / 128 == 1, flags / 64 % 2 == 1, flags / 2 % 16, flags % 2 * 2 + limits / 128, limits % 128, last,
          vector)
  }

  function ReadArt(b: Bytes): Art
    requires |b| == 18
  {
    Art(b[0], b[1] % 128, b[2..18])
  }

  function ReadRdo(b: Bytes, dodagId: Ip): Option<Rdo> {
    if |b| < 2 then None
    else
      var compr := b[0] % 16;
      var n := Blocks(|b| - 2, compr);
      if n.None? || n.value < 1 || n.value - 1 > P2pMaxEntries(compr) then None
      else Some(RdoFrom(b[0], b[1], b[2..18 - compr], Rebuilt(b[18 - compr..], n.value - 1, compr, dodagId), dodagId))
  }

  function RdoFrom(flags: Byte, limits: Byte, tail: Bytes, vector: seq<Ip>, dodagId: Ip): Rdo
    requires |tail| == 16 - flags % 16
  {
    Rdo(flags / 128 == 1, flags / 64 % 2 == 1, flags / 16 % 4, flags % 16, limits / 64, limits % 64,
        dodagId[..flags % 16] + tail, vector)
  }

  function ReadTarget(b: Bytes): TargetOption
    requires |b| == 18
  {
    TargetOption(b[1], b[2..18])
  }

  /** One option: unrecognised types, and recognised ones of the wrong length, are skipped. */
  function Apply(d: Dio, t: Tlv): Dio {
    var b := t.body;
    if t.kind == OPTION_DAG_CONF && |b| == 14 then d.(dagConf := Some(ReadDagConf(b)))
    else if t.kind == OPTION_METRIC_CONTAINER && |b| == 6 then
      if b[0] == MC_ETX && b[3] == 2 then d.(pathEtx := Some(Get16(b[4..6])))
      else if b[0] == MC_LQL && b[3] == 2 then d.(lql := Some(if b[5] / 16 < LQL_WORST then b[5] / 16 else LQL_WORST))
      else d
    else if t.kind == OPTION_PREFIX_INFO && |b| == 26 then d.(prefixInfo := Some(ReadPrefix(b)))
    else if t.kind == OPTION_AODV_RREQ && |b| >= 3 then
      var r := ReadRoute(b, false, d.dodagId);
      if r.Some? then d.(rreq := r) else d
    else if t.kind == OPTION_AODV_RREP && |b| >= 3 then
      var r := ReadRoute(b, true, d.dodagId);
      if r.Some? then d.(rrep := r) else d
    else if t.kind == OPTION_AODV_ART && |b| == 18 then d.(arts := d.arts + [ReadArt(b)])
    else if t.kind == OPTION_P2P_RDO then d.(rdo := ReadRdo(b, d.dodagId))
    else if t.kind == OPTION_TARGET && |b| == 18 then d.(targets := d.targets + [ReadTarget(b)])
    else d
  }

  function ApplyAll(d: Dio, ts: seq<Tlv>): Dio
    decreases |ts|
  {
    if ts == [] then d else ApplyAll(Apply(d, ts[0]), ts[1..])
  }

  function ReadBase(b: Bytes): Dio
    requires |b| >= BASE_SIZE
  {
    Dio(b[0], b[1], Get16(b[2..4]), b[4] / 128 == 1, b[4] / 8 % 8, b[4] % 8, b[5], b[8..24],
        None, None, None, None, None, None, [], None, [])
  }

  function Decode(b: Bytes): Dio
    requires |b| >= BASE_SIZE
  {
    ApplyAll(ReadBase(b), Split(b[BASE_SIZE..]))
  }

  // ---------------------------------------------------------------- round trip

  /** Values the setters accept, and address vectors that fit their options. */
  predicate Settable(d: Dio) {
    && d.mop <= 7 && d.preference <= 7
    && (d.lql.Some? ==> d.lql.value <= LQL_WORST)
    && (d.rreq.Some? ==> RouteSettable(d.rreq.value, d.dodagId))
    && (d.rrep.Some? ==> RouteSettable(d.rrep.value, d.dodagId) && d.rrep.value.last < 64)
    && (forall a :: a in d.arts ==> a.prefixLength < 128)
    && (d.rdo.Some? ==> RdoSettable(d.rdo.value, d.dodagId))
  }

  predicate RouteSettable(r: Route, dodagId: Ip) {
    r.lifetime <= 3 && r.rankLimit < 128 && |r.vector| <= MaxEntries(Elided(r.vector, dodagId))
  }

  predicate RdoSettable(r: Rdo, dodagId: Ip) {
    && r.numRoutes <= 3 && r.lifetime <= 3 && r.maxRankOrNh < 64
    && |r.vector| <= P2pMaxEntries(RdoElided(r.target, r.vector, dodagId))
  }

  /** What decoding restores: everything, with Compr as recomputed. */
  function WithCompr(d: Dio): Dio {
    d.(rreq := if d.rreq.Some? then Some(d.rreq.value.(compr := Elided(d.rreq.value.vector, d.dodagId))) else None,
       rrep := if d.rrep.Some? then Some(d.rrep.value.(compr := Elided(d.rrep.value.vector, d.dodagId))) else None,
       rdo := if d.rdo.Some?
              then Some(d.rdo.value.(compr := RdoElided(d.rdo.value.target, d.rdo.value.vector, d.dodagId)))
              else None)
  }

  lemma PrefixRoundTrip(p: PrefixInfo)
    ensures |PrefixBody(p)| == 26 && ReadPrefix(PrefixBody(p)) == p
  {
    var b := PrefixBody(p);
    assert b[2..6] == Put32(p.validLifetime) && b[6..10] == Put32(p.preferredLifetime) && b[10..26] == p.prefix;
  }

  lemma {:induction false} TakingPlain(n: nat)
    ensures Taking(n, 0) == n * 16 && Taking(n, 8) == n * 8
  {
    if n > 0 {
      TakingPlain(n - 1);
    }
  }

  lemma Multiples(n: nat)
    ensures Rest(n * 16, 16) == 0 && Whole(n * 16, 16) == n
    ensures Rest(n * 8, 8) == 0 && Whole(n * 8, 8) == n
  {
  }

  lemma BlocksOf(n: nat, compr: Byte)
    requires compr == 0 || compr == 8
    ensures Blocks(Taking(n, compr), compr) == Some(n)
  {
    hide Taking, Rest, Whole;
    TakingPlain(n);
    Multiples(n);
    if compr == 0 {
      assert Blocks(n * 16, 0) == Some(n);
    } else {
      assert Blocks(n * 8, 8) == Some(n);
    }
  }

  /** The straddling field, and everything around it, comes back. */
  lemma RouteFlags(flag: bool, hopByHop: bool, compr: Byte, lifetime: Byte, rankLimit: Byte)
    requires (compr == 0 || compr == 8) && lifetime <= 3 && rankLimit < 128
    ensures var x: int := (if flag then 0x80 else 0) + (if hopByHop then 0x40 else 0) + compr * 2 + lifetime / 2 % 2;
            var y: int := lifetime % 2 * 128 + rankLimit % 128;
            && 0 <= x < 256 && 0 <= y < 256
            && (x / 128 == 1 <==> flag) && (x / 64 % 2 == 1 <==> hopByHop) && x / 2 % 16 == compr
            && x % 2 * 2 + y / 128 == lifetime && y % 128 == rankLimit
  {
    var high: int, low: int := lifetime / 2, lifetime % 2;
    assert high <= 1 && lifetime == high * 2 + low && high % 2 == high && rankLimit % 128 == rankLimit;
  }

  lemma RouteParts(r: Route, last: Byte, dodagId: Ip)
    ensures var compr := Elided(r.vector, dodagId);
            var b := RouteBody(r, last, dodagId);
            && |b| == 3 + Taking(|r.vector|, compr)
            && b[0] == RouteHead(r, compr, last)[0] && b[1] == RouteHead(r, compr, last)[1] && b[2] == last
            && b[3..] == Tails(r.vector, compr) && Rebuilt(b[3..], |r.vector|, compr, dodagId) == r.vector
  {
    TailsRebuild(r.vector, Elided(r.vector, dodagId), dodagId);
    assert RouteBody(r, last, dodagId)[3..] == Tails(r.vector, Elided(r.vector, dodagId));
  }

  lemma RouteHeadReads(r: Route, compr: Byte, last: Byte, v: Byte)
    requires (compr == 0 || compr == 8) && r.lifetime <= 3 && r.rankLimit < 128
    ensures var h := RouteHead(r, compr, last);
            && h[0] / 2 % 16 == compr && h[2] == last
            && RouteFrom(h[0], h[1], v, r.vector) == r.(compr := compr, last := v)
  {
    RouteFlags(r.flag, r.hopByHop, compr, r.lifetime, r.rankLimit);
    var x: int := (if r.flag then 0x80 else 0) + (if r.hopByHop then 0x40 else 0) + compr * 2 + r.lifetime / 2 % 2;
    var y: int := r.lifetime % 2 * 128 + r.rankLimit % 128;
    assert RouteHead(r, compr, last) == [x, y, last];
  }

  lemma ReadRouteOf(b: Bytes, delta: bool, dodagId: Ip, compr: Byte, n: nat)
    requires (compr == 0 || compr == 8) && |b| == 3 + Taking(n, compr)
    requires b[0] / 2 % 16 == compr && n <= MaxEntries(compr)
    ensures ReadRoute(b, delta, dodagId)
         == Some(RouteFrom(b[0], b[1], if delta then b[2] / 4 else b[2], Rebuilt(b[3..], n, compr, dodagId)))
  {
    BlocksOf(n, compr);
  }

  lemma RouteRoundTrip(r: Route, delta: bool, dodagId: Ip)
    requires RouteSettable(r, dodagId) && (delta ==> r.last < 64)
    ensures var b := RouteBody(r, if delta then r.last * 4 else r.last, dodagId);
            && |b| == 3 + Taking(|r.vector|, Elided(r.vector, dodagId))
            && ReadRoute(b, delta, dodagId) == Some(r.(compr := Elided(r.vector, dodagId)))
  {
    var compr := Elided(r.vector, dodagId);
    hide Elided, Tails, Rebuilt, ReadRoute, RouteBody, RouteHead, RouteFrom, MaxEntries, Taking;
    var last: Byte := if delta then r.last * 4 else r.last;
    assert (if delta then last / 4 else last) == r.last;
    var b := RouteBody(r, last, dodagId);
    RouteParts(r, last, dodagId);
    RouteHeadReads(r, compr, last, r.last);
    ReadRouteOf(b, delta, dodagId, compr, |r.vector|);
  }

  lemma RdoParts(r: Rdo, dodagId: Ip)
    ensures var compr := RdoElided(r.target, r.vector, dodagId);
            var b := RdoBody(r, dodagId);
            && |b| == 2 + Taking(|r.vector| + 1, compr)
            && b[0] == RdoHead(r, compr)[0] && b[1] == RdoHead(r, compr)[1] && b[2..18 - compr] == r.target[compr..]
            && b[18 - compr..] == Tails(r.vector, compr)
            && Rebuilt(b[18 - compr..], |r.vector|, compr, dodagId) == r.vector
            && r.target == dodagId[..compr] + r.target[compr..]
  {
    var compr := RdoElided(r.target, r.vector, dodagId);
    assert forall a :: a in r.vector ==> a[..compr] == dodagId[..compr];
    assert r.target[..compr] == dodagId[..compr];
    hide RdoElided, Rebuilt, Tails;
    TailsRebuild(r.vector, compr, dodagId);
    Pieces(RdoHead(r, compr), r.target[compr..], Tails(r.vector, compr));
    assert r.target == r.target[..compr] + r.target[compr..];
  }

  lemma RdoHeadReads(r: Rdo, compr: Byte, dodagId: Ip)
    requires (compr == 0 || compr == 8) && r.numRoutes <= 3 && r.lifetime <= 3 && r.maxRankOrNh < 64
    requires r.target == dodagId[..compr] + r.target[compr..]
    ensures var h := RdoHead(r, compr);
            h[0] % 16 == compr && RdoFrom(h[0], h[1], r.target[compr..], r.vector, dodagId) == r.(compr := compr)
  {
  }

  lemma ReadRdoOf(b: Bytes, dodagId: Ip, compr: Byte, n: nat)
    requires (compr == 0 || compr == 8) && |b| == 2 + Taking(n + 1, compr)
    requires b[0] % 16 == compr && n <= P2pMaxEntries(compr)
    ensures ReadRdo(b, dodagId)
         == Some(RdoFrom(b[0], b[1], b[2..18 - compr], Rebuilt(b[18 - compr..], n, compr, dodagId), dodagId))
  {
    BlocksOf(n + 1, compr);
  }

  lemma RdoRoundTrip(r: Rdo, dodagId: Ip)
    requires RdoSettable(r, dodagId)
    ensures var b := RdoBody(r, dodagId);
            && |b| == 2 + Taking(|r.vector| + 1, RdoElided(r.target, r.vector, dodagId))
            && ReadRdo(b, dodagId) == Some(r.(compr := RdoElided(r.target, r.vector, dodagId)))
  {
    var compr := RdoElided(r.target, r.vector, dodagId);
    var b := RdoBody(r, dodagId);
    RdoParts(r, dodagId);
    RdoHeadReads(r, compr, dodagId);
    ReadRdoOf(b, dodagId, compr, |r.vector|);
  }

  lemma ArtRoundTrip(a: Art)
    requires a.prefixLength < 128
    ensures |ArtBody(a)| == 18 && ReadArt(ArtBody(a)) == a
  {
    assert ArtBody(a)[2..18] == a.target;
  }

  lemma TargetRoundTrip(t: TargetOption)
    ensures |TargetBody(t)| == 18 && ReadTarget(TargetBody(t)) == t
  {
    assert TargetBody(t)[2..18] == t.target;
  }

  lemma {:induction false} ApplyConcat(d: Dio, a: seq<Tlv>, b: seq<Tlv>)
    ensures ApplyAll(d, a + b) == ApplyAll(ApplyAll(d, a), b)
    decreases |a|
  {
    if a == [] {
      assert a + b == b;
    } else {
      assert (a + b)[1..] == a[1..] + b;
      ApplyConcat(Apply(d, a[0]), a[1..], b);
    }
  }

  lemma {:induction false} ArtsAreRead(d: Dio, arts: seq<Art>)
    requires forall a :: a in arts ==> a.prefixLength < 128
    ensures ApplyAll(d, ArtOptions(arts)) == d.(arts := d.arts + arts)
    ensures forall t :: t in ArtOptions(arts) ==> Writable(t)
    decreases |arts|
  {
    if arts != [] {
      var next := d.(arts := d.arts + [arts[0]]);
      ArtRoundTrip(arts[0]);
      ArtsAreRead(next, arts[1..]);
      assert d.arts + arts == d.arts + [arts[0]] + arts[1..];
    }
  }

  lemma {:induction false} TargetsAreRead(d: Dio, targets: seq<TargetOption>)
    ensures ApplyAll(d, TargetOptions(targets)) == d.(targets := d.targets + targets)
    ensures forall t :: t in TargetOptions(targets) ==> Writable(t)
    decreases |targets|
  {
    if targets != [] {
      var next := d.(targets := d.targets + [targets[0]]);
      TargetRoundTrip(targets[0]);
      TargetsAreRead(next, targets[1..]);
      assert d.targets + targets == d.targets + [targets[0]] + targets[1..];
    }
  }

  /** Reading the options `ts` takes the message from `x` to `y`. */
  ghost predicate Reads(x: Dio, ts: seq<Tlv>, y: Dio) {
    (forall t :: t in ts ==> Writable(t)) && ApplyAll(x, ts) == y
  }

  lemma Then(x: Dio, a: seq<Tlv>, y: Dio, b: seq<Tlv>, z: Dio)
    requires Reads(x, a, y) && Reads(y, b, z)
    ensures Reads(x, a + b, z)
  {
    ApplyConcat(x, a, b);
  }

  lemma ReadsOne(x: Dio, t: Tlv)
    requires Writable(t)
    ensures Reads(x, [t], Apply(x, t))
  {
  }

  /** n entries of 16 - Compr octets, when there are at most as many as 255 octets allow. */
  lemma EntriesFit(n: nat, compr: Byte)
    requires compr == 0 || compr == 8
    ensures n <= MaxEntries(compr) ==> 3 + Taking(n, compr) < 256
    ensures n <= P2pMaxEntries(compr) ==> 2 + Taking(n + 1, compr) < 256
  {
    TakingIs(n, compr);
    TakingIs(n + 1, compr);
    if compr == 0 {
      assert Taking(n, compr) == n * 16 && Taking(n + 1, compr) == n * 16 + 16;
    } else {
      assert Taking(n, compr) == n * 8 && Taking(n + 1, compr) == n * 8 + 8;
    }
  }

  lemma RouteFits(r: Route, dodagId: Ip)
    requires RouteSettable(r, dodagId)
    ensures 3 + Taking(|r.vector|, Elided(r.vector, dodagId)) < 256
  {
    EntriesFit(|r.vector|, Elided(r.vector, dodagId));
  }

  lemma RdoFits(r: Rdo, dodagId: Ip)
    requires RdoSettable(r, dodagId)
    ensures 2 + Taking(|r.vector| + 1, RdoElided(r.target, r.vector, dodagId)) < 256
  {
    EntriesFit(|r.vector|, RdoElided(r.target, r.vector, dodagId));
  }

  lemma DagConfReads(d: Dio, x: Dio)
    requires x.dagConf.None?
    ensures Reads(x, DagConfOption(d), x.(dagConf := d.dagConf))
  {
    if d.dagConf.Some? {
      ReadsOne(x, DagConfOption(d)[0]);
    }
  }

  lemma EtxReads(d: Dio, x: Dio)
    requires x.pathEtx.None?
    ensures Reads(x, EtxOption(d), x.(pathEtx := d.pathEtx))
  {
    if d.pathEtx.Some? {
      assert EtxBody(d.pathEtx.value)[4..6] == Put16(d.pathEtx.value);
      ReadsOne(x, EtxOption(d)[0]);
    }
  }

  lemma LqlReads(d: Dio, x: Dio)
    requires x.lql.None? && (d.lql.Some? ==> d.lql.value <= LQL_WORST)
    ensures Reads(x, LqlOption(d), x.(lql := d.lql))
  {
    hide ReadRoute, ReadRdo, ReadDagConf, ReadPrefix, Get16, Put16;
    if d.lql.Some? {
      ReadsOne(x, LqlOption(d)[0]);
    }
  }

  lemma PrefixReads(d: Dio, x: Dio)
    requires x.prefixInfo.None?
    ensures Reads(x, PrefixOption(d), x.(prefixInfo := d.prefixInfo))
  {
    if d.prefixInfo.Some? {
      PrefixRoundTrip(d.prefixInfo.value);
      ReadsOne(x, PrefixOption(d)[0]);
    }
  }

  lemma RreqReads(d: Dio, x: Dio)
    requires Settable(d) && x.dodagId == d.dodagId && x.rreq.None?
    ensures Reads(x, RreqOption(d), x.(rreq := WithCompr(d).rreq))
  {
    hide RouteBody, ReadRoute, Elided, Taking, MaxEntries;
    if d.rreq.Some? {
      RouteRoundTrip(d.rreq.value, false, d.dodagId);
      RouteFits(d.rreq.value, d.dodagId);
      ReadsOne(x, RreqOption(d)[0]);
    }
  }

  lemma RrepReads(d: Dio, x: Dio)
    requires Settable(d) && x.dodagId == d.dodagId && x.rrep.None?
    ensures Reads(x, RrepOption(d), x.(rrep := WithCompr(d).rrep))
  {
    hide RouteBody, ReadRoute, Elided, Taking, MaxEntries;
    if d.rrep.Some? {
      RouteRoundTrip(d.rrep.value, true, d.dodagId);
      RouteFits(d.rrep.value, d.dodagId);
      ReadsOne(x, RrepOption(d)[0]);
    }
  }

  lemma RdoReads(d: Dio, x: Dio)
    requires Settable(d) && x.dodagId == d.dodagId && x.rdo.None?
    ensures Reads(x, RdoOption(d), x.(rdo := WithCompr(d).rdo))
  {
    hide RdoBody, ReadRdo, RdoElided, Taking, P2pMaxEntries;
    if d.rdo.Some? {
      RdoRoundTrip(d.rdo.value, d.dodagId);
      RdoFits(d.rdo.value, d.dodagId);
      ReadsOne(x, RdoOption(d)[0]);
    }
  }

  lemma PlainReads(d: Dio, x: Dio)
    requires Settable(d) && x.dagConf.None? && x.pathEtx.None? && x.lql.None? && x.prefixInfo.None?
    ensures Reads(x, PlainOptions(d),
                  x.(dagConf := d.dagConf, pathEtx := d.pathEtx, lql := d.lql, prefixInfo := d.prefixInfo))
  {
    var x1 := x.(dagConf := d.dagConf);
    var x2 := x1.(pathEtx := d.pathEtx);
    var x3 := x2.(lql := d.lql);
    var x4 := x3.(prefixInfo := d.prefixInfo);
    DagConfReads(d, x);
    EtxReads(d, x1);
    LqlReads(d, x2);
    PrefixReads(d, x3);
    Then(x2, LqlOption(d), x3, PrefixOption(d), x4);
    Then(x1, EtxOption(d), x2, LqlOption(d) + PrefixOption(d), x4);
    Then(x, DagConfOption(d), x1, EtxOption(d) + (LqlOption(d) + PrefixOption(d)), x4);
  }

  lemma ListsRead(d: Dio, x: Dio)
    requires Settable(d) && x.dodagId == d.dodagId && x.arts == [] && x.rdo.None? && x.targets == []
    ensures Reads(x, ArtOptions(d.arts) + (RdoOption(d) + TargetOptions(d.targets)),
                  x.(arts := d.arts, rdo := WithCompr(d).rdo, targets := d.targets))
  {
    var x1 := x.(arts := d.arts);
    var x2 := x1.(rdo := WithCompr(d).rdo);
    var x3 := x2.(targets := d.targets);
    ArtsAreRead(x, d.arts);
    assert x.arts + d.arts == d.arts;
    RdoReads(d, x1);
    TargetsAreRead(x2, d.targets);
    assert x2.targets + d.targets == d.targets;
    Then(x1, RdoOption(d), x2, TargetOptions(d.targets), x3);
    Then(x, ArtOptions(d.arts), x1, RdoOption(d) + TargetOptions(d.targets), x3);
  }

  lemma OptionsRead(d: Dio)
    requires Settable(d)
    ensures Reads(Bare(d), OptionsOf(d), WithCompr(d))
  {
    var x, w := Bare(d), WithCompr(d);
    var x1 := x.(dagConf := d.dagConf, pathEtx := d.pathEtx, lql := d.lql, prefixInfo := d.prefixInfo);
    var x2 := x1.(rreq := w.rreq);
    var x3 := x2.(rrep := w.rrep);
    PlainReads(d, x);
    RreqReads(d, x1);
    RrepReads(d, x2);
    ListsRead(d, x3);
    var lists := ArtOptions(d.arts) + (RdoOption(d) + TargetOptions(d.targets));
    Then(x2, RrepOption(d), x3, lists, w);
    Then(x1, RreqOption(d), x2, RrepOption(d) + lists, w);
    Then(x, PlainOptions(d), x1, RreqOption(d) + (RrepOption(d) + lists), w);
  }

  /** The message without its options. */
  function Bare(d: Dio): Dio {
    d.(dagConf := None, pathEtx := None, lql := None, prefixInfo := None, rreq := None, rrep := None, arts := [],
       rdo := None, targets := [])
  }

  lemma BaseFlags(grounded: bool, mop: Byte, preference: Byte)
    requires mop < 8 && preference < 8
    ensures var f: int := (if grounded then 0x80 else 0) + mop % 8 * 8 + preference % 8;
            0 <= f < 256 && (f / 128 == 1 <==> grounded) && f / 8 % 8 == mop && f % 8 == preference
  {
    assert mop % 8 == mop && preference % 8 == preference;
    var f: int := (if grounded then 0x80 else 0) + mop * 8 + preference;
    assert f / 8 == (if grounded then 16 else 0) + mop;
  }

  lemma BaseRoundTrip(d: Dio)
    requires Settable(d)
    ensures ReadBase(Base(d)) == Bare(d)
  {
    BaseFlags(d.grounded, d.mop, d.preference);
    assert |Put16(d.rank)| == 2;
    hide Put16, Get16;
    var b := Base(d);
    assert b[2..4] == Put16(d.rank) && b[8..24] == d.dodagId;
    assert b[..2] == [d.instanceId, d.version] && b[0] == b[..2][0] && b[1] == b[..2][1];
    var f: Byte := (if d.grounded then 0x80 else 0) + d.mop % 8 * 8 + d.preference % 8;
    assert b[4..8] == [f, d.dtsn, 0, 0] && b[4] == b[4..8][0] && b[5] == b[4..8][1];
  }

  /** What Serialize writes. */
  function Wire(d: Dio): Bytes
    requires Settable(d)
  {
    OptionsRead(d);
    Base(d) + AllOnWire(OptionsOf(d))
  }

  /** Every DIO within the setters' ranges comes back from its octets, Compr aside. */
  lemma RoundTrip(d: Dio)
    requires Settable(d)
    ensures Decode(Wire(d)) == WithCompr(d)
  {
    OptionsRead(d);
    SplitUndoesWriting(OptionsOf(d));
    BaseRoundTrip(d);
    var b := Wire(d);
    assert b[BASE_SIZE..] == AllOnWire(OptionsOf(d));
    BaseIsLocal(Base(d), b);
  }

  lemma BaseIsLocal(base: Bytes, b: Bytes)
    requires |base| == BASE_SIZE <= |b| && b[..BASE_SIZE] == base
    ensures ReadBase(b) == ReadBase(base)
  {
    assert forall i :: 0 <= i < BASE_SIZE ==> b[i] == b[..BASE_SIZE][i];
    assert b[2..4] == base[2..4] && b[8..24] == base[8..24];
  }

  // ---------------------------------------------------------------- size

  function PlainSize(d: Dio): nat {
    (if d.dagConf.Some? then 16 else 0) + (if d.pathEtx.Some? then 8 else 0) + (if d.lql.Some? then 8 else 0)
    + (if d.prefixInfo.Some? then 28 else 0)
  }

  function RouteSize(r: Option<Route>, dodagId: Ip): nat {
    if r.None? then 0 else 5 + |r.value.vector| * (16 - Elided(r.value.vector, dodagId))
  }

  function RdoSize(r: Option<Rdo>, dodagId: Ip): nat {
    if r.None? then 0 else 4 + (1 + |r.value.vector|) * (16 - RdoElided(r.value.target, r.value.vector, dodagId))
  }

  /** What GetSerializedSize answers. */
  function SerializedSize(d: Dio): nat {
    24 + PlainSize(d) + RouteSize(d.rreq, d.dodagId) + RouteSize(d.rrep, d.dodagId) + |d.arts| * 20
    + RdoSize(d.rdo, d.dodagId) + |d.targets| * 20
  }

  function Occupied(ts: seq<Tlv>): nat {
    if ts == [] then 0 else 2 + |ts[0].body| + Occupied(ts[1..])
  }

  lemma {:induction false} OccupiedConcat(a: seq<Tlv>, b: seq<Tlv>)
    ensures Occupied(a + b) == Occupied(a) + Occupied(b)
  {
    if a == [] {
      assert a + b == b;
    } else {
      assert (a + b)[1..] == a[1..] + b;
      OccupiedConcat(a[1..], b);
    }
  }

  lemma {:induction false} WireLength(ts: seq<Tlv>)
    requires forall t :: t in ts ==> Writable(t)
    ensures |AllOnWire(ts)| == Occupied(ts)
  {
    if ts != [] {
      WireLength(ts[1..]);
    }
  }

  lemma {:induction false} ArtsOccupy(arts: seq<Art>)
    ensures Occupied(ArtOptions(arts)) == |arts| * 20
  {
    if arts != [] {
      ArtsOccupy(arts[1..]);
    }
  }

  lemma {:induction false} TargetsOccupy(targets: seq<TargetOption>)
    ensures Occupied(TargetOptions(targets)) == |targets| * 20
  {
    if targets != [] {
      TargetsOccupy(targets[1..]);
    }
  }

  lemma RoutesOccupy(d: Dio)
    requires Settable(d)
    ensures Occupied(RreqOption(d)) == RouteSize(d.rreq, d.dodagId)
    ensures Occupied(RrepOption(d)) == RouteSize(d.rrep, d.dodagId)
  {
    hide RouteBody, ReadRoute, Elided, Taking, MaxEntries;
    if d.rreq.Some? {
      RouteRoundTrip(d.rreq.value, false, d.dodagId);
      TakingIs(|d.rreq.value.vector|, Elided(d.rreq.value.vector, d.dodagId));
    }
    if d.rrep.Some? {
      RouteRoundTrip(d.rrep.value, true, d.dodagId);
      TakingIs(|d.rrep.value.vector|, Elided(d.rrep.value.vector, d.dodagId));
    }
  }

  lemma RdoOccupies(d: Dio)
    requires Settable(d)
    ensures Occupied(RdoOption(d)) == RdoSize(d.rdo, d.dodagId)
  {
    hide RdoBody, ReadRdo, RdoElided, Taking, P2pMaxEntries;
    if d.rdo.Some? {
      RdoRoundTrip(d.rdo.value, d.dodagId);
      TakingIs(|d.rdo.value.vector| + 1, RdoElided(d.rdo.value.target, d.rdo.value.vector, d.dodagId));
    }
  }

  lemma EachPlainOccupies(d: Dio)
    ensures Occupied(DagConfOption(d)) == if d.dagConf.Some? then 16 else 0
    ensures Occupied(EtxOption(d)) == if d.pathEtx.Some? then 8 else 0
    ensures Occupied(LqlOption(d)) == if d.lql.Some? then 8 else 0
    ensures Occupied(PrefixOption(d)) == if d.prefixInfo.Some? then 28 else 0
  {
  }

  lemma PlainOccupy(d: Dio)
    ensures Occupied(PlainOptions(d)) == PlainSize(d)
  {
    EachPlainOccupies(d);
    OccupiedConcat(LqlOption(d), PrefixOption(d));
    OccupiedConcat(EtxOption(d), LqlOption(d) + PrefixOption(d));
    OccupiedConcat(DagConfOption(d), EtxOption(d) + (LqlOption(d) + PrefixOption(d)));
  }

  lemma PartsOccupy(d: Dio)
    ensures Occupied(OptionsOf(d)) == Occupied(PlainOptions(d)) + Occupied(RreqOption(d)) + Occupied(RrepOption(d))
                                      + Occupied(ArtOptions(d.arts)) + Occupied(RdoOption(d))
                                      + Occupied(TargetOptions(d.targets))
  {
    var last := RdoOption(d) + TargetOptions(d.targets);
    OccupiedConcat(RdoOption(d), TargetOptions(d.targets));
    OccupiedConcat(ArtOptions(d.arts), last);
    OccupiedConcat(RrepOption(d), ArtOptions(d.arts) + last);
    OccupiedConcat(RreqOption(d), RrepOption(d) + (ArtOptions(d.arts) + last));
    OccupiedConcat(PlainOptions(d), RreqOption(d) + (RrepOption(d) + (ArtOptions(d.arts) + last)));
  }

  lemma WireIs(d: Dio)
    requires Settable(d)
    ensures |Wire(d)| == BASE_SIZE + Occupied(OptionsOf(d))
  {
    OptionsRead(d);
    WireLength(OptionsOf(d));
  }

  /** The announced size is the number of octets written. */
  lemma SizeIsExact(d: Dio)
    requires Settable(d)
    ensures |Wire(d)| == SerializedSize(d)
  {
    WireIs(d);
    PartsOccupy(d);
    PlainOccupy(d);
    RoutesOccupy(d);
    ArtsOccupy(d.arts);
    RdoOccupies(d);
    TargetsOccupy(d.targets);
  }

  // ---------------------------------------------------------------- options that change nothing

  /** Options of unrecognised type, and fixed-length ones of any other length. */
  predicate Ignored(t: Tlv) {
    && t.kind != OPTION_P2P_RDO
    && (t.kind == OPTION_DAG_CONF ==> |t.body| != 14)
    && (t.kind == OPTION_METRIC_CONTAINER ==> |t.body| != 6)
    && (t.kind == OPTION_PREFIX_INFO ==> |t.body| != 26)
    && (t.kind == OPTION_AODV_RREQ || t.kind == OPTION_AODV_RREP ==> |t.body| < 3)
    && (t.kind == OPTION_AODV_ART || t.kind == OPTION_TARGET ==> |t.body| != 18)
  }

  lemma SkippedAmong(d: Dio, front: seq<Tlv>, t: Tlv, back: seq<Tlv>)
    requires Ignored(t)
    ensures ApplyAll(d, front + [t] + back) == ApplyAll(d, front + back)
  {
    ApplyConcat(d, front, back);
    ApplyConcat(d, front + [t], back);
    ApplyConcat(d, front, [t]);
    assert ApplyAll(ApplyAll(d, front), [t]) == Apply(ApplyAll(d, front), t);
  }

  /** Such an option, at any place where an option may begin and on any octets, changes no decoded field. */
  lemma IgnoredOptionIsSkipped(b: Bytes, p: nat, t: Tlv)
    requires |b| >= BASE_SIZE && Boundary(b[BASE_SIZE..], p) && BASE_SIZE + p <= |b|
    requires Writable(t) && Ignored(t)
    ensures Decode(b[..BASE_SIZE + p] + OnWire(t) + b[BASE_SIZE + p..]) == Decode(b)
  {
    hide OnWire, Split, Boundary, ApplyAll, Ignored, Apply;
    var o := b[BASE_SIZE..];
    var c := b[..BASE_SIZE + p] + OnWire(t) + b[BASE_SIZE + p..];
    assert o[p..] == b[BASE_SIZE + p..];
    assert c[BASE_SIZE..] == o[..p] + OnWire(t) + o[p..];
    InsertAtBoundary(o, p, t);
    BaseIsLocal(b[..BASE_SIZE], b);
    BaseIsLocal(b[..BASE_SIZE], c);
    SkippedAmong(ReadBase(b), Split(o[..p]), t, Split(o[p..]));
  }
}
