/** The DIO header object: its fields, written to octets and read from them one at a time. */
module DioHeader {
  import opened Lollipop
  import opened Octets
  import opened OptionWalk
  import opened Paths
  import opened RplTypes
  import opened DioCodec

  lemma Within(b: Bytes, p: nat, n: nat, i: nat, j: nat)
    requires i <= j <= n && p + n <= |b|
    ensures b[p..p + n][i..j] == b[p + i..p + j]
  {
    var x, y := b[p..p + n][i..j], b[p + i..p + j];
    assert forall k :: 0 <= k < |x| ==> x[k] == y[k];
  }

  lemma {:induction false} WireConcat(a: seq<Tlv>, b: seq<Tlv>)
    requires forall t :: t in a + b ==> Writable(t)
    ensures (forall t :: t in a ==> Writable(t)) && (forall t :: t in b ==> Writable(t))
    ensures AllOnWire(a + b) == AllOnWire(a) + AllOnWire(b)
  {
    hide OnWire, Writable;
    assert forall t :: t in a ==> t in a + b;
    assert forall t :: t in b ==> t in a + b;
    if a == [] {
      assert a + b == b;
    } else {
      var all := a + b;
      assert all[0] == a[0] && all[1..] == a[1..] + b;
      assert forall t :: t in a[1..] + b ==> t in all;
      WireConcat(a[1..], b);
      Associates(OnWire(a[0]), AllOnWire(a[1..]), AllOnWire(b));
    }
  }

  lemma WireOneMore(done: seq<Tlv>, t: Tlv)
    requires AllWritable(done) && Writable(t)
    ensures AllWritable(done + [t]) && AllOnWire(done + [t]) == AllOnWire(done) + OnWire(t)
  {
    WireConcat(done, [t]);
  }

  ghost predicate AllWritable(ts: seq<Tlv>) {
    forall t :: t in ts ==> Writable(t)
  }

  /** What the options from octet `p` on make of a message. */
  function ApplyFrom(d: Dio, data: Bytes, p: nat): Dio
    requires p <= |data|
  {
    ApplyAll(d, SplitFrom(data, p))
  }

  lemma ApplyAtOption(d: Dio, data: Bytes, p: nat, length: nat)
    requires p + 2 + length <= |data| && data[p] != PAD1 && data[p + 1] == length
    ensures ApplyFrom(d, data, p)
            == ApplyFrom(Apply(d, Tlv(data[p], data[p + 2..p + 2 + length])), data, p + 2 + length)
    ensures Turn(data[p..]) == Some(2 + length)
  {
    AtOption(data, p, length);
    var t, later := Tlv(data[p], data[p + 2..p + 2 + length]), SplitFrom(data, p + 2 + length);
    assert ([t] + later)[1..] == later;
  }

  lemma ApplyAtTruncation(d: Dio, data: Bytes, p: nat)
    requires p < |data| && data[p] != PAD1 && (p + 1 == |data| || p + 2 + data[p + 1] > |data|)
    ensures ApplyFrom(d, data, p) == d && Turn(data[p..]).None?
  {
  }

  lemma PlainWire(d: Dio)
    requires AllWritable(DagConfOption(d)) && AllWritable(EtxOption(d) + LqlOption(d)) && AllWritable(PrefixOption(d))
    ensures AllWritable(PlainOptions(d))
    ensures AllOnWire(PlainOptions(d))
         == AllOnWire(DagConfOption(d)) + (AllOnWire(EtxOption(d) + LqlOption(d)) + AllOnWire(PrefixOption(d)))
  {
    var m := EtxOption(d) + LqlOption(d);
    assert PlainOptions(d) == DagConfOption(d) + (m + PrefixOption(d));
    assert AllWritable(m + PrefixOption(d)) && AllWritable(DagConfOption(d) + (m + PrefixOption(d)));
    WireConcat(m, PrefixOption(d));
    WireConcat(DagConfOption(d), m + PrefixOption(d));
  }

  lemma OptionsWire(d: Dio)
    requires Settable(d)
    ensures AllWritable(OptionsOf(d)) && AllWritable(PlainOptions(d)) && AllWritable(RreqOption(d))
         && AllWritable(RrepOption(d)) && AllWritable(ArtOptions(d.arts)) && AllWritable(RdoOption(d))
         && AllWritable(TargetOptions(d.targets))
    ensures AllOnWire(OptionsOf(d))
         == AllOnWire(PlainOptions(d)) + (AllOnWire(RreqOption(d)) + (AllOnWire(RrepOption(d))
            + (AllOnWire(ArtOptions(d.arts)) + (AllOnWire(RdoOption(d)) + AllOnWire(TargetOptions(d.targets))))))
  {
    OptionsRead(d);
    var lists := ArtOptions(d.arts) + (RdoOption(d) + TargetOptions(d.targets));
    WireConcat(PlainOptions(d), RreqOption(d) + (RrepOption(d) + lists));
    WireConcat(RreqOption(d), RrepOption(d) + lists);
    WireConcat(RrepOption(d), lists);
    WireConcat(ArtOptions(d.arts), RdoOption(d) + TargetOptions(d.targets));
    WireConcat(RdoOption(d), TargetOptions(d.targets));
  }

  method WriteVector(vector: seq<Ip>, compr: Byte) returns (b: Bytes)
    requires compr < 16
    ensures b == Tails(vector, compr)
  {
    b := [];
    for k := 0 to |vector|
      invariant b + Tails(vector[k..], compr) == Tails(vector, compr)
    {
      assert vector[k..][1..] == vector[k + 1..];
      b := b + vector[k][compr..];
    }
  }

  method WriteArt(a: Art) returns (b: Bytes)
    ensures Writable(Tlv(OPTION_AODV_ART, ArtBody(a))) && b == OnWire(Tlv(OPTION_AODV_ART, ArtBody(a)))
  {
    b := [OPTION_AODV_ART, 18, a.destSeqNo, a.prefixLength % 128] + a.target;
  }

  method WriteTarget(t: TargetOption) returns (b: Bytes)
    ensures Writable(Tlv(OPTION_TARGET, TargetBody(t))) && b == OnWire(Tlv(OPTION_TARGET, TargetBody(t)))
  {
    b := [OPTION_TARGET, 18, 0, t.prefixLength] + t.target;
  }

  lemma {:induction false} ArtOptionsOneMore(arts: seq<Art>, a: Art)
    ensures ArtOptions(arts + [a]) == ArtOptions(arts) + [Tlv(OPTION_AODV_ART, ArtBody(a))]
  {
    hide ArtBody;
    if arts == [] {
      assert arts + [a] == [a] && [a][1..] == [];
    } else {
      assert (arts + [a])[1..] == arts[1..] + [a];
      ArtOptionsOneMore(arts[1..], a);
      Associates([Tlv(OPTION_AODV_ART, ArtBody(arts[0]))], ArtOptions(arts[1..]), [Tlv(OPTION_AODV_ART, ArtBody(a))]);
    }
  }

  method WriteArts(arts: seq<Art>) returns (b: Bytes)
    ensures AllWritable(ArtOptions(arts)) && b == AllOnWire(ArtOptions(arts))
  {
    b := [];
    ghost var done: seq<Tlv> := [];
    assert ArtOptions(arts[..0]) == [] && AllOnWire(done) == [];
    hide ArtOptions, AllOnWire, OnWire, ArtBody;
    for k := 0 to |arts|
      invariant done == ArtOptions(arts[..k])
      invariant AllWritable(done) && b == AllOnWire(done)
    {
      ArtOptionsOneMore(arts[..k], arts[k]);
      assert arts[..k + 1] == arts[..k] + [arts[k]];
      var one := WriteArt(arts[k]);
      WireOneMore(done, Tlv(OPTION_AODV_ART, ArtBody(arts[k])));
      b := b + one;
      done := done + [Tlv(OPTION_AODV_ART, ArtBody(arts[k]))];
    }
    assert arts[..|arts|] == arts;
  }

  lemma {:induction false} TargetOptionsOneMore(targets: seq<TargetOption>, t: TargetOption)
    ensures TargetOptions(targets + [t]) == TargetOptions(targets) + [Tlv(OPTION_TARGET, TargetBody(t))]
  {
    hide TargetBody;
    if targets == [] {
      assert targets + [t] == [t] && [t][1..] == [];
    } else {
      assert (targets + [t])[1..] == targets[1..] + [t];
      TargetOptionsOneMore(targets[1..], t);
      Associates([Tlv(OPTION_TARGET, TargetBody(targets[0]))], TargetOptions(targets[1..]),
                 [Tlv(OPTION_TARGET, TargetBody(t))]);
    }
  }

  method WriteTargets(targets: seq<TargetOption>) returns (b: Bytes)
    ensures AllWritable(TargetOptions(targets)) && b == AllOnWire(TargetOptions(targets))
  {
    b := [];
    ghost var done: seq<Tlv> := [];
    assert TargetOptions(targets[..0]) == [] && AllOnWire(done) == [];
    hide TargetOptions, AllOnWire, OnWire, TargetBody;
    for k := 0 to |targets|
      invariant done == TargetOptions(targets[..k])
      invariant AllWritable(done) && b == AllOnWire(done)
    {
      TargetOptionsOneMore(targets[..k], targets[k]);
      assert targets[..k + 1] == targets[..k] + [targets[k]];
      var one := WriteTarget(targets[k]);
      WireOneMore(done, Tlv(OPTION_TARGET, TargetBody(targets[k])));
      b := b + one;
      done := done + [Tlv(OPTION_TARGET, TargetBody(targets[k]))];
    }
    assert targets[..|targets|] == targets;
  }

  lemma RebuiltFrom(data: Bytes, pos: nat, end: nat, n: nat, compr: Byte, dodagId: Ip)
    requires compr < 16 && n > 0 && pos <= end <= |data| && end - pos == Taking(n, compr)
    ensures var next := pos + (16 - compr);
            && next <= end && end - next == Taking(n - 1, compr)
            && Rebuilt(data[pos..end], n, compr, dodagId)
               == [dodagId[..compr] + data[pos..next]] + Rebuilt(data[next..end], n - 1, compr, dodagId)
  {
    var next := pos + (16 - compr);
    assert data[pos..end][..16 - compr] == data[pos..next] && data[pos..end][16 - compr..] == data[next..end];
  }

  lemma NothingRebuilt(tails: Bytes, compr: Byte, dodagId: Ip)
    requires compr < 16
    ensures Taking(0, compr) == 0 && Rebuilt(tails, 0, compr, dodagId) == []
  {
  }

  method ReadVector(i: Cursor, n: nat, compr: Byte, dodagId: Ip) returns (v: seq<Ip>)
    requires compr < 16 && i.Has(Taking(n, compr))
    modifies i
    ensures i.pos == old(i.pos) + Taking(n, compr)
    ensures v == Rebuilt(i.data[old(i.pos)..i.pos], n, compr, dodagId)
  {
    v := [];
    ghost var end := i.pos + Taking(n, compr);
    ghost var all := Rebuilt(i.data[i.pos..end], n, compr, dodagId);
    hide Rebuilt, Taking;
    for entry := 0 to n
      invariant old(i.pos) <= i.pos && i.pos + Taking(n - entry, compr) == end <= |i.data|
      invariant v + Rebuilt(i.data[i.pos..end], n - entry, compr, dodagId) == all
    {
      RebuiltFrom(i.data, i.pos, end, n - entry, compr, dodagId);
      var tail := i.Read(16 - compr);
      var address: Ip := dodagId[..compr] + tail;
      Associates(v, [address], Rebuilt(i.data[i.pos..end], n - entry - 1, compr, dodagId));
      v := v + [address];
    }
    NothingRebuilt(i.data[i.pos..end], compr, dodagId);
  }

  lemma WholeRoute(b: Bytes, delta: bool, dodagId: Ip, n: nat)
    requires |b| >= 3 && Blocks(|b| - 3, b[0] / 2 % 16) == Some(n) && n <= MaxEntries(b[0] / 2 % 16)
    ensures |b[3..]| >= Taking(n, b[0] / 2 % 16)
    ensures ReadRoute(b, delta, dodagId)
         == Some(RouteFrom(b[0], b[1], if delta then b[2] / 4 else b[2], Rebuilt(b[3..], n, b[0] / 2 % 16, dodagId)))
  {
  }

  lemma NoRoute(b: Bytes, delta: bool, dodagId: Ip)
    requires |b| >= 3
    requires var n := Blocks(|b| - 3, b[0] / 2 % 16); n.None? || n.value > MaxEntries(b[0] / 2 % 16)
    ensures ReadRoute(b, delta, dodagId).None?
  {
  }

  lemma NoRdo(b: Bytes, dodagId: Ip)
    requires |b| < 2
          || var n := Blocks(|b| - 2, b[0] % 16); n.None? || n.value < 1 || n.value - 1 > P2pMaxEntries(b[0] % 16)
    ensures ReadRdo(b, dodagId).None?
  {
  }

  lemma WholeRdo(b: Bytes, dodagId: Ip, blocks: nat)
    requires |b| >= 2 && Blocks(|b| - 2, b[0] % 16) == Some(blocks) && 1 <= blocks <= P2pMaxEntries(b[0] % 16) + 1
    ensures var compr, tails := b[0] % 16, b[2..];
            && |tails| >= 16 - compr && |tails[16 - compr..]| >= Taking(blocks - 1, compr)
            && ReadRdo(b, dodagId)
               == Some(RdoFrom(b[0], b[1], tails[..16 - compr],
                               Rebuilt(tails[16 - compr..], blocks - 1, compr, dodagId), dodagId))
  {
    var compr := b[0] % 16;
    assert b[2..][..16 - compr] == b[2..18 - compr] && b[2..][16 - compr..] == b[18 - compr..];
  }

  class RplDioHeader {
    var fields: Dio

    constructor (fields: Dio)
      ensures this.fields == fields
    {
      this.fields := fields;
    }

    // ---------------------------------------------------------------- reading

    method ReadDagConfOption(i: Cursor)
      requires i.Has(14)
      modifies this, i
      ensures i.pos == old(i.pos) + 14
      ensures fields == old(fields).(dagConf := Some(ReadDagConf(i.data[old(i.pos)..i.pos])))
    {
      ghost var p := i.pos;
      var flags := i.ReadU8();
      var doublings := i.ReadU8();
      var intervalMin := i.ReadU8();
      var redundancy := i.ReadU8();
      var maxRankIncrease := i.ReadU16();
      var minHopRankIncrease := i.ReadU16();
      var ocp := i.ReadU16();
      i.Next(1);
      var defaultLifetime := i.ReadU8();
      var lifetimeUnit := i.ReadU16();
      Within(i.data, p, 14, 4, 6);
      Within(i.data, p, 14, 6, 8);
      Within(i.data, p, 14, 8, 10);
      Within(i.data, p, 14, 12, 14);
      fields := fields.(dagConf := Some(DagConf(flags, doublings, intervalMin, redundancy, maxRankIncrease,
                                                minHopRankIncrease, ocp, defaultLifetime, lifetimeUnit)));
    }

    method ReadMetricOption(i: Cursor)
      requires i.Has(6)
      modifies this, i
      ensures i.pos == old(i.pos) + 6
      ensures fields == Apply(old(fields), Tlv(OPTION_METRIC_CONTAINER, i.data[old(i.pos)..i.pos]))
    {
      ghost var p := i.pos;
      Within(i.data, p, 6, 4, 6);
      var kind := i.ReadU8();
      i.Next(2);
      var length := i.ReadU8();
      if kind == MC_ETX && length == 2 {
        var pathEtx := i.ReadU16();
        fields := fields.(pathEtx := Some(pathEtx));
      } else if kind == MC_LQL && length == 2 {
        i.Next(1);
        var subObject := i.ReadU8();
        fields := fields.(lql := Some(if subObject / 16 < LQL_WORST then subObject / 16 else LQL_WORST));
      } else {
        i.Next(2);
      }
    }

    method ReadPrefixOption(i: Cursor)
      requires i.Has(26)
      modifies this, i
      ensures i.pos == old(i.pos) + 26
      ensures fields == old(fields).(prefixInfo := Some(ReadPrefix(i.data[old(i.pos)..i.pos])))
    {
      ghost var p := i.pos;
      var length := i.ReadU8();
      var flags := i.ReadU8();
      var valid := i.ReadU32();
      var preferred := i.ReadU32();
      var prefix := i.Read(16);
      Within(i.data, p, 26, 2, 6);
      Within(i.data, p, 26, 6, 10);
      Within(i.data, p, 26, 10, 26);
      fields := fields.(prefixInfo := Some(PrefixInfo(length, flags / 128 == 1, flags / 64 % 2 == 1, valid, preferred,
                                                       prefix)));
    }

    method ReadRouteOption(i: Cursor, length: nat, delta: bool) returns (r: Option<Route>)
      requires 3 <= length && i.Has(length)
      modifies i
      ensures i.pos == old(i.pos) + length
      ensures r == ReadRoute(i.data[old(i.pos)..i.pos], delta, fields.dodagId)
    {
      hide Rebuilt, ReadRoute, Taking, MaxEntries;
      ghost var p := i.pos;
      ghost var b := i.data[p..p + length];
      var flags := i.ReadU8();
      var limits := i.ReadU8();
      assert b[0] == flags && b[1] == limits;
      var compr: Byte := flags / 2 % 16;
      var entries := Blocks(length - 3, compr);
      if entries.None? || entries.value > MaxEntries(compr) {
        i.Next(length - 2);
        assert i.data[p..i.pos] == b;
        NoRoute(b, delta, fields.dodagId);
        return None;
      }
      var last := i.ReadU8();
      assert b[2] == last && i.data[i.pos..i.pos + (length - 3)] == b[3..];
      var vector := ReadVector(i, entries.value, compr, fields.dodagId);
      assert i.data[p..i.pos] == b;
      WholeRoute(b, delta, fields.dodagId, entries.value);
      r := Some(RouteFrom(flags, limits, if delta then last / 4 else last, vector));
    }

    method ReadRdoOption(i: Cursor, length: nat) returns (r: Option<Rdo>)
      requires i.Has(length)
      modifies i
      ensures i.pos == old(i.pos) + length
      ensures r == ReadRdo(i.data[old(i.pos)..i.pos], fields.dodagId)
    {
      hide ReadRdo, Taking, P2pMaxEntries;
      ghost var p := i.pos;
      ghost var b := i.data[p..p + length];
      if length < 2 {
        i.Next(length);
        NoRdo(b, fields.dodagId);
        return None;
      }
      var flags := i.ReadU8();
      var limits := i.ReadU8();
      assert b[0] == flags && b[1] == limits && b[2..] == i.data[i.pos..i.pos + (length - 2)];
      var blocks := Blocks(length - 2, flags % 16);
      if blocks.None? || blocks.value < 1 || blocks.value - 1 > P2pMaxEntries(flags % 16) {
        i.Next(length - 2);
        NoRdo(b, fields.dodagId);
        r := None;
      } else {
        r := ReadWholeRdo(i, flags, limits, blocks.value, b);
      }
      assert i.data[p..i.pos] == b;
    }

    /** The rest of a well-formed P2P-RDO `b`, its flags and limits being read. */
    method ReadWholeRdo(i: Cursor, flags: Byte, limits: Byte, blocks: nat, ghost b: Bytes) returns (r: Option<Rdo>)
      requires |b| >= 2 && b[0] == flags && b[1] == limits
      requires Blocks(|b| - 2, flags % 16) == Some(blocks) && 1 <= blocks <= P2pMaxEntries(flags % 16) + 1
      requires i.Has(|b| - 2) && b[2..] == i.data[i.pos..i.pos + (|b| - 2)]
      modifies i
      ensures i.pos == old(i.pos) + (|b| - 2) && r == ReadRdo(b, fields.dodagId)
    {
      hide Rebuilt, ReadRdo, P2pMaxEntries;
      WholeRdo(b, fields.dodagId, blocks);
      var target, vector := ReadRdoAddresses(i, blocks, flags % 16, b[2..]);
      r := Some(RdoFrom(flags, limits, target, vector, fields.dodagId));
    }

    /** TargetAddr and the vector, each without its first Compr octets. */
    method ReadRdoAddresses(i: Cursor, blocks: nat, compr: Byte, ghost tails: Bytes)
      returns (tail: Bytes, vector: seq<Ip>)
      requires compr < 16 && blocks > 0 && |tails| == Taking(blocks, compr)
      requires i.Has(|tails|) && tails == i.data[i.pos..i.pos + |tails|]
      modifies i
      ensures i.pos == old(i.pos) + |tails|
      ensures |tails| >= 16 - compr && |tails[16 - compr..]| >= Taking(blocks - 1, compr)
      ensures tail == tails[..16 - compr] && vector == Rebuilt(tails[16 - compr..], blocks - 1, compr, fields.dodagId)
    {
      tail := i.Read(16 - compr);
      assert tail == tails[..16 - compr] && tails[16 - compr..] == i.data[i.pos..i.pos + Taking(blocks - 1, compr)];
      vector := ReadVector(i, blocks - 1, compr, fields.dodagId);
    }

    method ReadArtOption(i: Cursor)
      requires i.Has(18)
      modifies this, i
      ensures i.pos == old(i.pos) + 18
      ensures fields == old(fields).(arts := old(fields).arts + [ReadArt(i.data[old(i.pos)..i.pos])])
    {
      Within(i.data, i.pos, 18, 2, 18);
      var destSeqNo := i.ReadU8();
      var prefixLength := i.ReadU8();
      var target := i.Read(16);
      fields := fields.(arts := fields.arts + [Art(destSeqNo, prefixLength % 128, target)]);
    }

    method ReadTargetOption(i: Cursor)
      requires i.Has(18)
      modifies this, i
      ensures i.pos == old(i.pos) + 18
      ensures fields == old(fields).(targets := old(fields).targets + [ReadTarget(i.data[old(i.pos)..i.pos])])
    {
      Within(i.data, i.pos, 18, 2, 18);
      i.Next(1);
      var prefixLength := i.ReadU8();
      var target := i.Read(16);
      fields := fields.(targets := fields.targets + [TargetOption(prefixLength, target)]);
    }

    /** One option past its type and length: exactly `length` octets are consumed, whatever is in them. */
    method ReadOption(i: Cursor, kind: Byte, length: nat)
      requires i.Has(length)
      modifies this, i
      ensures i.pos == old(i.pos) + length
      ensures fields == Apply(old(fields), Tlv(kind, i.data[old(i.pos)..i.pos]))
    {
      if kind == OPTION_DAG_CONF && length == 14 {
        ReadDagConfOption(i);
      } else if kind == OPTION_METRIC_CONTAINER && length == 6 {
        ReadMetricOption(i);
      } else if kind == OPTION_PREFIX_INFO && length == 26 {
        ReadPrefixOption(i);
      } else if kind == OPTION_AODV_RREQ && length >= 3 {
        var r := ReadRouteOption(i, length, false);
        if r.Some? { fields := fields.(rreq := r); }
      } else if kind == OPTION_AODV_RREP && length >= 3 {
        var r := ReadRouteOption(i, length, true);
        if r.Some? { fields := fields.(rrep := r); }
      } else if kind == OPTION_AODV_ART && length == 18 {
        ReadArtOption(i);
      } else if kind == OPTION_P2P_RDO {
        var r := ReadRdoOption(i, length);
        fields := fields.(rdo := r);
      } else if kind == OPTION_TARGET && length == 18 {
        ReadTargetOption(i);
      } else {
        i.Next(length);
      }
    }

    method ReadFixedPart(i: Cursor)
      requires i.pos == 0 && i.Has(BASE_SIZE)
      modifies this, i
      ensures i.pos == BASE_SIZE && fields == ReadBase(i.data)
    {
      var instanceId := i.ReadU8();
      var version := i.ReadU8();
      var rank := i.ReadU16();
      var flags := i.ReadU8();
      var dtsn := i.ReadU8();
      i.Next(2);
      var dodagId := i.Read(16);
      fields := Dio(instanceId, version, rank, flags / 128 == 1, flags / 8 % 8, flags % 8, dtsn, dodagId,
                    None, None, None, None, None, None, [], None, []);
    }

    /** One turn of the option loop, which consumes an option whole. `more` is false where the loop stops. */
    method TakeTurn(i: Cursor) returns (more: bool)
      requires i.pos < |i.data|
      modifies this, i
      ensures if more then Turn(i.data[old(i.pos)..]) == Some(i.pos - old(i.pos)) else Turn(i.data[old(i.pos)..]).None?
      ensures old(i.pos) < i.pos <= |i.data|
      ensures ApplyFrom(old(fields), i.data, old(i.pos)) == if more then ApplyFrom(fields, i.data, i.pos) else fields
    {
      hide Turn, SplitFrom, ApplyAll, Apply;
      ghost var p := i.pos;
      more := true;
      var kind := i.ReadU8();
      if kind == PAD1 {
        AtPadding(i.data, p);
        return;
      }
      if i.pos == |i.data| {
        ApplyAtTruncation(fields, i.data, p);
        return false;
      }
      var length: nat := i.ReadU8();
      if |i.data| - i.pos < length {
        ApplyAtTruncation(fields, i.data, p);
        return false;
      }
      ApplyAtOption(fields, i.data, p, length);
      ReadOption(i, kind, length);
    }

    /** Reads any octets holding the fixed part, never past their end. */
    method Deserialize(b: Bytes) returns (n: nat)
      requires |b| >= BASE_SIZE
      modifies this
      ensures fields == Decode(b)
      ensures BASE_SIZE <= n <= |b|
    {
      var i := new Cursor(b);
      ReadFixedPart(i);
      ghost var goal := Decode(b);
      assert ApplyFrom(fields, b, i.pos) == goal;
      var more := true;
      while i.pos < |b| && more
        invariant fresh(i) && i.data == b && BASE_SIZE <= i.pos <= |b|
        invariant goal == if more then ApplyFrom(fields, b, i.pos) else fields
        decreases |b| - i.pos
      {
        more := TakeTurn(i);
      }
      n := i.pos;
    }

    // ---------------------------------------------------------------- writing

    method WriteRoute(kind: Byte, r: Route, last: Byte) returns (b: Bytes)
      requires kind != PAD1 && RouteSettable(r, fields.dodagId)
      ensures Writable(Tlv(kind, RouteBody(r, last, fields.dodagId)))
      ensures b == OnWire(Tlv(kind, RouteBody(r, last, fields.dodagId)))
    {
      RouteFits(r, fields.dodagId);
      RouteParts(r, last, fields.dodagId);
      var compr := Elided(r.vector, fields.dodagId);
      TakingIs(|r.vector|, compr);
      var length: nat := 3 + |r.vector| * (16 - compr);
      var tails := WriteVector(r.vector, compr);
      assert |RouteBody(r, last, fields.dodagId)| == length;
      b := [kind, length] + (RouteHead(r, compr, last) + tails);
    }

    method WriteRdo(r: Rdo) returns (b: Bytes)
      requires RdoSettable(r, fields.dodagId)
      ensures Writable(Tlv(OPTION_P2P_RDO, RdoBody(r, fields.dodagId)))
      ensures b == OnWire(Tlv(OPTION_P2P_RDO, RdoBody(r, fields.dodagId)))
    {
      RdoFits(r, fields.dodagId);
      var compr := RdoElided(r.target, r.vector, fields.dodagId);
      TailsRebuild(r.vector, compr, fields.dodagId);
      TakingIs(1 + |r.vector|, compr);
      var length: nat := 2 + (1 + |r.vector|) * (16 - compr);
      var tails := WriteVector(r.vector, compr);
      assert |RdoBody(r, fields.dodagId)| == length;
      b := [OPTION_P2P_RDO, length] + (RdoHead(r, compr) + (r.target[compr..] + tails));
    }

    method WriteDagConf() returns (b: Bytes)
      ensures AllWritable(DagConfOption(fields)) && b == AllOnWire(DagConfOption(fields))
    {
      b := [];
      if fields.dagConf.Some? {
        var c := fields.dagConf.value;
        b := [OPTION_DAG_CONF, 14, c.flags, c.doublings, c.intervalMin, c.redundancy] + Put16(c.maxRankIncrease)
             + Put16(c.minHopRankIncrease) + Put16(c.ocp) + [0, c.defaultLifetime] + Put16(c.lifetimeUnit);
      }
    }

    method WritePrefix() returns (b: Bytes)
      ensures AllWritable(PrefixOption(fields)) && b == AllOnWire(PrefixOption(fields))
    {
      b := [];
      if fields.prefixInfo.Some? {
        var p := fields.prefixInfo.value;
        b := [OPTION_PREFIX_INFO, 26, p.length, (if p.onLink then 0x80 else 0) + (if p.autonomous then 0x40 else 0)]
             + Put32(p.validLifetime) + Put32(p.preferredLifetime) + p.prefix;
      }
    }

    method WriteMetrics() returns (b: Bytes)
      ensures AllWritable(EtxOption(fields) + LqlOption(fields))
      ensures b == AllOnWire(EtxOption(fields) + LqlOption(fields))
    {
      b := [];
      if fields.pathEtx.Some? {
        b := b + [OPTION_METRIC_CONTAINER, 6, MC_ETX, 0, 0, 2] + Put16(fields.pathEtx.value);
      }
      assert b == AllOnWire(EtxOption(fields));
      ghost var etx := b;
      if fields.lql.Some? {
        b := b + [OPTION_METRIC_CONTAINER, 6, MC_LQL, 0, 0, 2, 0, (fields.lql.value * 16 + 1) % 256];
      }
      assert b == etx + AllOnWire(LqlOption(fields));
      WireConcat(EtxOption(fields), LqlOption(fields));
    }

    method WritePlain() returns (b: Bytes)
      ensures AllWritable(PlainOptions(fields)) && b == AllOnWire(PlainOptions(fields))
    {
      var dagConf := WriteDagConf();
      var metrics := WriteMetrics();
      var prefix := WritePrefix();
      b := dagConf + (metrics + prefix);
      PlainWire(fields);
    }

    method Serialize() returns (b: Bytes)
      requires Settable(fields)
      ensures b == DioCodec.Wire(fields)
    {
      OptionsWire(fields);
      var base: Bytes := Base(fields);
      hide AllOnWire, OnWire, OptionsOf, PlainOptions, ArtOptions, TargetOptions, RouteBody, RdoBody, Base;
      var plain := WritePlain();
      var rreq: Bytes := [];
      if fields.rreq.Some? {
        rreq := WriteRoute(OPTION_AODV_RREQ, fields.rreq.value, fields.rreq.value.last);
      }
      assert rreq == AllOnWire(RreqOption(fields));
      var rrep: Bytes := [];
      if fields.rrep.Some? {
        rrep := WriteRoute(OPTION_AODV_RREP, fields.rrep.value, fields.rrep.value.last % 64 * 4);
      }
      assert rrep == AllOnWire(RrepOption(fields));
      var arts := WriteArts(fields.arts);
      var rdo: Bytes := [];
      if fields.rdo.Some? {
        rdo := WriteRdo(fields.rdo.value);
      }
      assert rdo == AllOnWire(RdoOption(fields));
      var targets := WriteTargets(fields.targets);
      b := base + (plain + (rreq + (rrep + (arts + (rdo + targets)))));
    }
  }
}
