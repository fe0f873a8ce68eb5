/** The DAO: its Target and Transit Information options, the grouping they must have, and the octets they stand in. */
module DaoCodec {
  import opened Lollipop
  import opened Octets
  import opened OptionWalk
  import opened Paths
  import opened RplTypes

  const OPTION_TARGET: Byte := 5
  const OPTION_TRANSIT: Byte := 6
  const TARGET_LENGTH := 18
  const TRANSIT_LENGTH := 20

  /** A target with what its Transit Information says of it, the parent aside. */
  datatype Group = Group(prefixLength: Byte, target: Ip, pathSequence: Byte, pathLifetime: Byte)

  /** Every group shares one parent. */
  datatype Dao = Dao(
    instanceId: Byte, ackRequested: bool, sequenceNumber: Byte, dodagId: Ip, parent: Ip, primary: Group,
    additional: seq<Group>)

  // ---------------------------------------------------------------- grouping

  /** The options that take part in the grouping. */
  datatype Item =
    | Target(prefixLength: Byte, target: Ip)
    | Transit(pathSequence: Byte, pathLifetime: Byte, parent: Ip)

  function ItemOf(t: Tlv): seq<Item> {
    if t.kind == OPTION_TARGET && |t.body| == TARGET_LENGTH then [Target(t.body[1], t.body[2..18])]
    else if t.kind == OPTION_TRANSIT && |t.body| == TRANSIT_LENGTH then [Transit(t.body[2], t.body[3], t.body[4..20])]
    else []
  }

  function Items(ts: seq<Tlv>): seq<Item> {
    if ts == [] then [] else ItemOf(ts[0]) + Items(ts[1..])
  }

  lemma {:induction false} ItemsConcat(a: seq<Tlv>, b: seq<Tlv>)
    ensures Items(a + b) == Items(a) + Items(b)
  {
    if a == [] {
      assert a + b == b;
    } else {
      assert (a + b)[1..] == a[1..] + b;
      ItemsConcat(a[1..], b);
    }
  }

  /** Target, Transit, Target, Transit, ... with possibly a Target left over. */
  predicate Alternates(items: seq<Item>) {
    forall k :: 0 <= k < |items| ==> (items[k].Target? <==> k % 2 == 0)
  }

  function PairAt(items: seq<Item>, k: nat): Group
    requires Alternates(items) && 2 * k + 1 < |items|
  {
    assert items[2 * k].Target? && items[2 * k + 1].Transit?;
    Group(items[2 * k].prefixLength, items[2 * k].target, items[2 * k + 1].pathSequence, items[2 * k + 1].pathLifetime)
  }

  /** The in-order pairs. */
  function Pairs(items: seq<Item>): seq<Group>
    requires Alternates(items)
  {
    seq(|items| / 2, k requires 0 <= k < |items| / 2 => PairAt(items, k))
  }

  const NO_GROUP := Group(128, UNSPECIFIED, 0, 0)

  /** What a well-grouped list leaves in the header: the first pair is primary and alone gives the parent. */
  function Filled(d: Dao, items: seq<Item>): Dao
    requires Alternates(items)
  {
    var pairs := Pairs(items);
    if pairs == [] then d.(primary := d.primary.(target := UNSPECIFIED), parent := UNSPECIFIED, additional := [])
    else d.(primary := pairs[0], parent := items[1].parent, additional := pairs[1..])
  }

  /** Any other grouping clears the header. */
  function Grouped(d: Dao, items: seq<Item>): Dao {
    if Alternates(items) then Filled(d, items)
    else d.(primary := NO_GROUP, parent := UNSPECIFIED, additional := [])
  }

  // ---------------------------------------------------------------- octets

  function TargetTlv(g: Group): Tlv {
    Tlv(OPTION_TARGET, [0, g.prefixLength] + g.target)
  }

  function TransitTlv(g: Group, parent: Ip): Tlv {
    Tlv(OPTION_TRANSIT, [0, 0, g.pathSequence, g.pathLifetime] + parent)
  }

  function GroupOptions(groups: seq<Group>, parent: Ip): seq<Tlv> {
    if groups == [] then []
    else [TargetTlv(groups[0]), TransitTlv(groups[0], parent)] + GroupOptions(groups[1..], parent)
  }

  function Groups(d: Dao): seq<Group> {
    [d.primary] + d.additional
  }

  function DaoBase(d: Dao): Bytes {
    [d.instanceId, (if d.ackRequested then 0x80 else 0) + (if d.dodagId != UNSPECIFIED then 0x40 else 0), 0,
     d.sequenceNumber]
    + (if d.dodagId != UNSPECIFIED then d.dodagId else [])
  }

  lemma {:induction false} GroupsAreWritable(groups: seq<Group>, parent: Ip)
    ensures forall t :: t in GroupOptions(groups, parent) ==> Writable(t)
  {
    if groups != [] {
      GroupsAreWritable(groups[1..], parent);
    }
  }

  /** What Serialize writes. */
  function DaoWire(d: Dao): Bytes {
    DaoBase(d) + GroupsWire(Groups(d), d.parent)
  }

  function GroupsWire(groups: seq<Group>, parent: Ip): Bytes {
    GroupsAreWritable(groups, parent);
    AllOnWire(GroupOptions(groups, parent))
  }

  predicate HasDodagId(b: Bytes)
    requires |b| >= 4
  {
    b[1] / 64 % 2 == 1
  }

  /** Where the options begin. */
  function DaoOptionsAt(b: Bytes): nat
    requires |b| >= 4
  {
    if HasDodagId(b) then 20 else 4
  }

  predicate HoldsBase(b: Bytes) {
    |b| >= 4 && |b| >= DaoOptionsAt(b)
  }

  function ReadDaoBase(before: Dao, b: Bytes): Dao
    requires HoldsBase(b)
  {
    before.(instanceId := b[0], ackRequested := b[1] / 128 == 1, sequenceNumber := b[3],
            dodagId := if HasDodagId(b) then b[4..20] else UNSPECIFIED)
  }

  function DecodeDao(before: Dao, b: Bytes): Dao
    requires HoldsBase(b)
  {
    Grouped(ReadDaoBase(before, b), Items(Split(b[DaoOptionsAt(b)..])))
  }

  // ---------------------------------------------------------------- round trip

  function ItemsOf(groups: seq<Group>, parent: Ip): seq<Item> {
    if groups == [] then []
    else [Target(groups[0].prefixLength, groups[0].target),
          Transit(groups[0].pathSequence, groups[0].pathLifetime, parent)]
         + ItemsOf(groups[1..], parent)
  }

  lemma OneGroupRead(g: Group, parent: Ip)
    ensures ItemOf(TargetTlv(g)) == [Target(g.prefixLength, g.target)]
    ensures ItemOf(TransitTlv(g, parent)) == [Transit(g.pathSequence, g.pathLifetime, parent)]
  {
    assert TargetTlv(g).body[2..18] == g.target;
    assert TransitTlv(g, parent).body[4..20] == parent;
  }

  lemma {:induction false} GroupsAreRead(groups: seq<Group>, parent: Ip)
    ensures Items(GroupOptions(groups, parent)) == ItemsOf(groups, parent)
  {
    if groups != [] {
      var t, u := TargetTlv(groups[0]), TransitTlv(groups[0], parent);
      OneGroupRead(groups[0], parent);
      ItemsConcat([t, u], GroupOptions(groups[1..], parent));
      ItemsConcat([t], [u]);
      assert [t] + [u] == [t, u] && Items([t]) == ItemOf(t) && Items([u]) == ItemOf(u);
      GroupsAreRead(groups[1..], parent);
    }
  }

  lemma {:induction false} ItemsOfAt(groups: seq<Group>, parent: Ip, k: nat)
    requires k < |groups|
    ensures |ItemsOf(groups, parent)| == 2 * |groups|
    ensures ItemsOf(groups, parent)[2 * k] == Target(groups[k].prefixLength, groups[k].target)
    ensures ItemsOf(groups, parent)[2 * k + 1] == Transit(groups[k].pathSequence, groups[k].pathLifetime, parent)
  {
    var rest := ItemsOf(groups[1..], parent);
    if k > 0 {
      ItemsOfAt(groups[1..], parent, k - 1);
      assert ItemsOf(groups, parent)[2 * k] == rest[2 * (k - 1)];
      assert ItemsOf(groups, parent)[2 * k + 1] == rest[2 * (k - 1) + 1];
    } else if |groups| > 1 {
      ItemsOfAt(groups[1..], parent, 0);
    }
  }

  lemma ItemsOfPair(groups: seq<Group>, parent: Ip)
    requires groups != []
    ensures var items := ItemsOf(groups, parent);
            Alternates(items) && Pairs(items) == groups && items[1].Transit? && items[1].parent == parent
  {
    var items := ItemsOf(groups, parent);
    ItemsOfAt(groups, parent, 0);
    forall k | 0 <= k < |items| ensures items[k].Target? <==> k % 2 == 0 {
      ItemsOfAt(groups, parent, k / 2);
      assert k == 2 * (k / 2) || k == 2 * (k / 2) + 1;
    }
    forall k | 0 <= k < |groups| ensures Pairs(items)[k] == groups[k] {
      ItemsOfAt(groups, parent, k);
    }
  }

  lemma DaoBaseRoundTrip(d: Dao, before: Dao)
    ensures var b := DaoWire(d);
            && HoldsBase(b) && b[DaoOptionsAt(b)..] == GroupsWire(Groups(d), d.parent)
            && ReadDaoBase(before, b)
               == before.(instanceId := d.instanceId, ackRequested := d.ackRequested,
                          sequenceNumber := d.sequenceNumber, dodagId := d.dodagId)
  {
    var b := DaoWire(d);
    if d.dodagId != UNSPECIFIED {
      assert b[4..20] == d.dodagId;
    }
  }

  /** Every DAO comes back from its octets, whatever the header held before. */
  lemma DaoRoundTrip(d: Dao, before: Dao)
    ensures HoldsBase(DaoWire(d)) && DecodeDao(before, DaoWire(d)) == d
  {
    DaoBaseRoundTrip(d, before);
    GroupsAreWritable(Groups(d), d.parent);
    SplitUndoesWriting(GroupOptions(Groups(d), d.parent));
    GroupsAreRead(Groups(d), d.parent);
    ItemsOfPair(Groups(d), d.parent);
  }

  /** GetSerializedSize. */
  function DaoSize(d: Dao): nat {
    4 + (if d.dodagId != UNSPECIFIED then 16 else 0) + 42 + |d.additional| * 42
  }

  lemma {:induction false} GroupsOccupy(groups: seq<Group>, parent: Ip)
    ensures |GroupsWire(groups, parent)| == |groups| * 42
  {
    if groups != [] {
      GroupsOccupy(groups[1..], parent);
      GroupFirst(groups, parent);
    }
  }

  lemma GroupFirst(groups: seq<Group>, parent: Ip)
    requires groups != []
    ensures GroupsWire(groups, parent)
         == OnWire(TargetTlv(groups[0])) + OnWire(TransitTlv(groups[0], parent)) + GroupsWire(groups[1..], parent)
  {
    GroupsAreWritable(groups, parent);
    var ts := GroupOptions(groups, parent);
    assert ts[0] == TargetTlv(groups[0]) && ts[1..][0] == TransitTlv(groups[0], parent);
    assert ts[1..][1..] == GroupOptions(groups[1..], parent);
    assert AllOnWire(ts) == OnWire(ts[0]) + AllOnWire(ts[1..]);
    assert AllOnWire(ts[1..]) == OnWire(ts[1..][0]) + AllOnWire(ts[1..][1..]);
    Associates(OnWire(ts[0]), OnWire(ts[1]), AllOnWire(ts[1..][1..]));
  }

  lemma DaoSizeIsExact(d: Dao)
    ensures |DaoWire(d)| == DaoSize(d)
  {
    GroupsOccupy(Groups(d), d.parent);
  }

  lemma ForeignAmong(front: seq<Tlv>, t: Tlv, back: seq<Tlv>)
    requires ItemOf(t) == []
    ensures Items(front + [t] + back) == Items(front + back)
  {
    ItemsConcat(front, back);
    ItemsConcat(front + [t], back);
    ItemsConcat(front, [t]);
    assert Items([t]) == [] + Items([]) == [];
    assert Items(front) + [] == Items(front);
  }

  lemma DaoBaseIsLocal(before: Dao, b: Bytes, c: Bytes)
    requires HoldsBase(b) && |c| >= DaoOptionsAt(b) && c[..DaoOptionsAt(b)] == b[..DaoOptionsAt(b)]
    ensures HoldsBase(c) && DaoOptionsAt(c) == DaoOptionsAt(b) && ReadDaoBase(before, c) == ReadDaoBase(before, b)
  {
    var start := DaoOptionsAt(b);
    assert forall i :: 0 <= i < start ==> c[i] == c[..start][i] && b[i] == b[..start][i];
    assert HasDodagId(b) ==> c[4..20] == b[4..20];
  }

  /** An option of any other type or length, wherever an option may begin, changes nothing. */
  lemma ForeignOptionIsSkipped(before: Dao, b: Bytes, p: nat, t: Tlv)
    requires HoldsBase(b)
    requires var o := b[DaoOptionsAt(b)..]; Boundary(o, p) && p <= |o|
    requires Writable(t) && ItemOf(t) == []
    ensures var at := DaoOptionsAt(b) + p;
            HoldsBase(b[..at] + OnWire(t) + b[at..])
            && DecodeDao(before, b[..at] + OnWire(t) + b[at..]) == DecodeDao(before, b)
  {
    hide OnWire, Split, Boundary, Items, ItemOf, Grouped, ReadDaoBase;
    var start := DaoOptionsAt(b);
    var o := b[start..];
    var c := b[..start + p] + OnWire(t) + b[start + p..];
    DaoBaseIsLocal(before, b, c);
    assert o[p..] == b[start + p..] && c[start..] == o[..p] + OnWire(t) + o[p..];
    InsertAtBoundary(o, p, t);
    ForeignAmong(Split(o[..p]), t, Split(o[p..]));
  }

  // ---------------------------------------------------------------- the loop

  /** The items still to be met from octet `p` on. */
  function Left(data: Bytes, p: nat): seq<Item>
    requires p <= |data|
  {
    Items(SplitFrom(data, p))
  }

  lemma LeftAtOption(data: Bytes, p: nat, length: nat)
    requires p + 2 + length <= |data| && data[p] != PAD1 && data[p + 1] == length
    ensures Left(data, p) == ItemOf(Tlv(data[p], data[p + 2..p + 2 + length])) + Left(data, p + 2 + length)
    ensures Turn(data[p..]) == Some(2 + length)
  {
    AtOption(data, p, length);
    var t, later := Tlv(data[p], data[p + 2..p + 2 + length]), SplitFrom(data, p + 2 + length);
    assert ([t] + later)[1..] == later;
  }

  /** A grouping once broken stays broken. */
  lemma BrokenStaysBroken(done: seq<Item>, next: Item, later: seq<Item>)
    requires next.Target? <==> |done| % 2 == 1
    ensures !Alternates(done + [next] + later)
  {
    assert (done + [next] + later)[|done|] == next;
  }

  /** The first pair is the message's own, later ones are additional. */
  function AfterItem(d: Dao, pending: seq<Item>, items: seq<Item>, haveAnyPair: bool): Dao
    requires forall x :: x in pending ==> x.Target?
  {
    if items == [] || items[0].Target? || pending == [] then d
    else
      var g := Group(pending[0].prefixLength, pending[0].target, items[0].pathSequence, items[0].pathLifetime);
      if haveAnyPair then d.(additional := d.additional + [g]) else d.(primary := g, parent := items[0].parent)
  }

  lemma ItemTaken(base: Dao, done: seq<Item>, items: seq<Item>)
    requires Alternates(done) && |items| <= 1
    requires items != [] ==> (items[0].Target? <==> |done| % 2 == 0)
    ensures var pending := if |done| % 2 == 1 then [done[|done| - 1]] else [];
            Alternates(done + items)
            && Filled(base, done + items) == AfterItem(Filled(base, done), pending, items, |done| >= 2)
  {
    if items == [] {
      assert done + items == done;
    } else if items[0].Target? {
      assert Pairs(done + items) == Pairs(done);
    } else {
      assert done + items == done + [items[0]];
    }
  }

  function Cleared(d: Dao): Dao {
    d.(primary := NO_GROUP, parent := UNSPECIFIED, additional := [])
  }

  /** Taking the items one at a time: a Target waits in `pending` for its Transit, and a break in the grouping
      ends all. */
  function Run(d: Dao, pending: seq<Item>, haveAnyPair: bool, items: seq<Item>): Dao
    requires forall x :: x in pending ==> x.Target?
    decreases |items|
  {
    if items == [] then d
    else if items[0].Target? <==> pending != [] then Cleared(d)
    else Run(AfterItem(d, pending, [items[0]], haveAnyPair), if items[0].Target? then [items[0]] else [],
             haveAnyPair || items[0].Transit?, items[1..])
  }

  function RunFrom(d: Dao, pending: seq<Item>, haveAnyPair: bool, data: Bytes, p: nat): Dao
    requires p <= |data| && forall x :: x in pending ==> x.Target?
  {
    Run(d, pending, haveAnyPair, Left(data, p))
  }

  lemma RunAtTruncation(d: Dao, pending: seq<Item>, haveAnyPair: bool, data: Bytes, p: nat)
    requires p < |data| && forall x :: x in pending ==> x.Target?
    requires data[p] != PAD1 && (p + 1 == |data| || p + 2 + data[p + 1] > |data|)
    ensures RunFrom(d, pending, haveAnyPair, data, p) == d && Turn(data[p..]).None?
  {
    assert Left(data, p) == [];
  }

  function Waiting(done: seq<Item>): seq<Item> {
    if |done| % 2 == 1 then [done[|done| - 1]] else []
  }

  /** One item at a time comes to the same as the grouping of the whole list. */
  lemma {:induction false} RunIsGrouped(base: Dao, done: seq<Item>, items: seq<Item>)
    requires Alternates(done)
    ensures Run(Filled(base, done), Waiting(done), |done| >= 2, items) == Grouped(base, done + items)
    decreases |items|
  {
    if items == [] {
      assert done + items == done;
    } else if items[0].Target? <==> |done| % 2 == 1 {
      BrokenStaysBroken(done, items[0], items[1..]);
      assert done + [items[0]] + items[1..] == done + items;
    } else {
      ItemTaken(base, done, [items[0]]);
      RunIsGrouped(base, done + [items[0]], items[1..]);
      assert done + [items[0]] + items[1..] == done + items;
    }
  }

  lemma RunTurn(d: Dao, pending: seq<Item>, haveAnyPair: bool, items: seq<Item>, later: seq<Item>)
    requires |items| <= 1 && forall x :: x in pending ==> x.Target?
    ensures Run(d, pending, haveAnyPair, items + later)
         == if items == [] then Run(d, pending, haveAnyPair, later)
            else if items[0].Target? <==> pending != [] then Cleared(d)
            else Run(AfterItem(d, pending, items, haveAnyPair), if items[0].Target? then items else [],
                     haveAnyPair || items[0].Transit?, later)
  {
    if items == [] {
      assert items + later == later;
    } else {
      assert items == [items[0]] && (items + later)[1..] == later;
    }
  }

  class RplDaoHeader {
    var fields: Dao

    constructor (fields: Dao)
      ensures this.fields == fields
    {
      this.fields := fields;
    }

    method ReadFixedPart(i: Cursor)
      requires i.pos == 0 && HoldsBase(i.data)
      modifies this, i
      ensures i.pos == DaoOptionsAt(i.data) && fields == ReadDaoBase(old(fields), i.data)
    {
      var instanceId := i.ReadU8();
      var flags := i.ReadU8();
      i.Next(1);
      var sequenceNumber := i.ReadU8();
      var dodagId := UNSPECIFIED;
      if flags / 64 % 2 == 1 {
        dodagId := i.Read(16);
      }
      fields := fields.(instanceId := instanceId, ackRequested := flags / 128 == 1, sequenceNumber := sequenceNumber,
                        dodagId := dodagId);
    }

    /** One option past its type and length, with `later` still to come. `pending` holds a Target awaiting
        its Transit. */
    method TakeOption(i: Cursor, kind: Byte, length: nat, pending: seq<Item>, haveAnyPair: bool, ghost later: seq<Item>)
      returns (stillPending: seq<Item>, anyPair: bool, malformed: bool)
      requires i.Has(length) && |pending| <= 1 && forall x :: x in pending ==> x.Target?
      modifies this, i
      ensures |stillPending| <= 1 && forall x :: x in stillPending ==> x.Target?
      ensures if malformed then i.pos == old(i.pos) else i.pos == old(i.pos) + length
      ensures Run(old(fields), pending, haveAnyPair, ItemOf(Tlv(kind, i.data[old(i.pos)..old(i.pos) + length])) + later)
           == if malformed then Cleared(fields) else Run(fields, stillPending, anyPair, later)
    {
      ghost var body := i.data[i.pos..i.pos + length];
      RunTurn(fields, pending, haveAnyPair, ItemOf(Tlv(kind, body)), later);
      stillPending, anyPair, malformed := pending, haveAnyPair, false;
      if kind == OPTION_TARGET && length == TARGET_LENGTH {
        if pending != [] {
          malformed := true;
          return;
        }
        i.Next(1);
        var prefixLength := i.ReadU8();
        var target := i.Read(16);
        assert target == body[2..18];
        stillPending := [Target(prefixLength, target)];
      } else if kind == OPTION_TRANSIT && length == TRANSIT_LENGTH {
        if pending == [] {
          malformed := true;
          return;
        }
        i.Next(2);
        var pathSequence := i.ReadU8();
        var pathLifetime := i.ReadU8();
        var parent := i.Read(16);
        assert parent == body[4..20];
        var g := Group(pending[0].prefixLength, pending[0].target, pathSequence, pathLifetime);
        if !haveAnyPair {
          fields := fields.(primary := g, parent := parent);
        } else {
          fields := fields.(additional := fields.additional + [g]);
        }
        anyPair := true;
        stillPending := [];
      } else {
        i.Next(length);
      }
    }

    /** One turn of the option loop, which consumes an option whole. `more` is false where the loop stops: at the end of
        the whole options, or at one that breaks the grouping. */
    method TakeTurn(i: Cursor, pending: seq<Item>, haveAnyPair: bool)
      returns (stillPending: seq<Item>, anyPair: bool, more: bool, malformed: bool)
      requires i.pos < |i.data| && |pending| <= 1 && forall x :: x in pending ==> x.Target?
      modifies this, i
      ensures old(i.pos) < i.pos <= |i.data|
      ensures more ==> Turn(i.data[old(i.pos)..]) == Some(i.pos - old(i.pos))
      ensures !more ==> (malformed <==> Turn(i.data[old(i.pos)..]).Some?)
      ensures |stillPending| <= 1 && forall x :: x in stillPending ==> x.Target?
      ensures RunFrom(old(fields), pending, haveAnyPair, i.data, old(i.pos))
           == if malformed then Cleared(fields)
              else if more then RunFrom(fields, stillPending, anyPair, i.data, i.pos)
              else fields
      ensures malformed ==> !more
    {
      hide Turn, SplitFrom, Items, Run, ItemOf;
      ghost var p := i.pos;
      stillPending, anyPair, more, malformed := pending, haveAnyPair, true, false;
      var kind := i.ReadU8();
      if kind == PAD1 {
        AtPadding(i.data, p);
        return;
      }
      if i.pos == |i.data| {
        RunAtTruncation(fields, pending, haveAnyPair, i.data, p);
        more := false;
        return;
      }
      var length: nat := i.ReadU8();
      if |i.data| - i.pos < length {
        RunAtTruncation(fields, pending, haveAnyPair, i.data, p);
        more := false;
        return;
      }
      LeftAtOption(i.data, p, length);
      stillPending, anyPair, malformed := TakeOption(i, kind, length, pending, haveAnyPair,
                                                        Left(i.data, p + 2 + length));
      more := !malformed;
    }

    /** The option loop. */
    method ReadOptions(i: Cursor)
      requires i.pos <= |i.data|
      modifies this, i
      ensures fields == RunFrom(old(fields), [], false, i.data, old(i.pos))
      ensures i.pos <= |i.data|
    {
      ghost var goal := RunFrom(fields, [], false, i.data, i.pos);
      var pending: seq<Item> := [];
      var haveAnyPair, malformed, more := false, false, true;
      while i.pos < |i.data| && more
        invariant i.pos <= |i.data| && |pending| <= 1 && forall x :: x in pending ==> x.Target?
        invariant if more then !malformed && RunFrom(fields, pending, haveAnyPair, i.data, i.pos) == goal
                  else goal == if malformed then Cleared(fields) else fields
        decreases |i.data| - i.pos
      {
        pending, haveAnyPair, more, malformed := TakeTurn(i, pending, haveAnyPair);
      }
      if malformed {
        fields := fields.(primary := NO_GROUP, parent := UNSPECIFIED, additional := []);
      }
    }

    /** On any octets holding the fixed part: the in-order pairs, or a cleared header, and no read past the end. */
    method Deserialize(b: Bytes) returns (n: nat)
      requires HoldsBase(b)
      modifies this
      ensures fields == DecodeDao(old(fields), b)
      ensures n <= |b|
    {
      var i := new Cursor(b);
      ReadFixedPart(i);
      ghost var items := Left(b, i.pos);
      RunIsGrouped(fields, [], items);
      assert [] + items == items;
      fields := fields.(primary := fields.primary.(target := UNSPECIFIED), parent := UNSPECIFIED, additional := []);
      ReadOptions(i);
      n := i.pos;
    }

    method Serialize() returns (b: Bytes)
      ensures b == DaoWire(fields)
    {
      b := DaoBase(fields);
      var primary := WriteGroup(fields.primary);
      b := b + primary;
      assert Groups(fields)[1..] == fields.additional;
      GroupFirst(Groups(fields), fields.parent);
      for k := 0 to |fields.additional|
        invariant b + GroupsWire(fields.additional[k..], fields.parent) == DaoWire(fields)
      {
        var g := WriteGroup(fields.additional[k]);
        assert fields.additional[k..][1..] == fields.additional[k + 1..];
        GroupFirst(fields.additional[k..], fields.parent);
        b := b + g;
      }
    }

    method WriteGroup(g: Group) returns (b: Bytes)
      ensures b == OnWire(TargetTlv(g)) + OnWire(TransitTlv(g, fields.parent))
    {
      b := [OPTION_TARGET, 18, 0, g.prefixLength] + g.target
           + [OPTION_TRANSIT, 20, 0, 0, g.pathSequence, g.pathLifetime] + fields.parent;
    }
  }
}
