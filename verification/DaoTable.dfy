/** What a DAO does to a router's downward state: the root's topology in non-storing mode, every router's downward
    routes in storing mode, and the changes a storing router relays to its preferred parent. */
module DaoTable {
  import opened Lollipop
  import opened RplTypes

  datatype Expiry = Never | At(time: Time)

  /** What is held about a target: the parent it reports (non-storing) or the child it was learnt from (storing). */
  datatype Entry = Entry(via: Address, sequence: Byte, lifetime: Byte, expire: Expiry)

  /** One Target and Transit Information pair of a DAO; lifetime 0 is a No-Path. */
  datatype Report = Report(target: Address, sequence: Byte, lifetime: Byte)

  /** The circumstances of one DAO: whom it names as next hop or parent, when it arrived, and who receives it. */
  datatype Context = Context(
    via: Address, now: Time, unit: nat, storing: bool, isRoot: bool, dodagId: Address, own: Address)

  function ExpiryOf(lifetime: Byte, c: Context): Expiry {
    if lifetime == INFINITE_LIFETIME then Never else At(c.now + lifetime * c.unit)
  }

  predicate Alive(e: Entry, now: Time) {
    e.expire.Never? || e.expire.time > now
  }

  function Look(table: map<Address, Entry>, a: Address): Option<Entry> {
    if a in table then Some(table[a]) else None
  }

  function Put(table: map<Address, Entry>, a: Address, e: Option<Entry>): map<Address, Entry> {
    if e.Some? then table[a := e.value] else table - {a}
  }

  /** The root forgets an expired entry before comparing; a storing router keeps its Path Sequence. */
  function Held(e: Option<Entry>, c: Context): Option<Entry> {
    if !c.storing && e.Some? && !Alive(e.value, c.now) then None else e
  }

  predicate Superseded(e: Option<Entry>, sequence: Byte) {
    e.Some? && Compare(sequence, e.value.sequence) in {Less, NotComparable}
  }

  function Updated(e: Option<Entry>, r: Report, c: Context): Option<Entry> {
    var held := Held(e, c);
    if Superseded(held, r.sequence) then held
    else if r.lifetime == 0 then None
    else Some(Entry(c.via, r.sequence, r.lifetime, ExpiryOf(r.lifetime, c)))
  }

  /** Whether a storing router has something to tell its parent: a newer Path Sequence, or the loss of a route. */
  predicate Relays(e: Option<Entry>, r: Report, c: Context) {
    && c.storing && !c.isRoot
    && !Superseded(e, r.sequence)
    && (if r.lifetime == 0 then e.Some? else e.None? || Compare(r.sequence, e.value.sequence) == Greater)
  }

  predicate Addressed(r: Report, c: Context) {
    r.target != ANY && r.target != c.dodagId && r.target != c.own
  }

  function HandleOne(table: map<Address, Entry>, r: Report, c: Context): map<Address, Entry> {
    if Addressed(r, c) then Put(table, r.target, Updated(Look(table, r.target), r, c)) else table
  }

  /** A report is heeded unless its target is the root, the receiver or none, or it is older than, or not to be compared
      with, what is held: at the root of a non-storing DODAG an expired entry is as good as none. */
  predicate Heeds(table: map<Address, Entry>, r: Report, c: Context) {
    && r.target != ANY && r.target != c.dodagId && r.target != c.own
    && (r.target in table ==>
          var e := table[r.target];
          || Compare(r.sequence, e.sequence) == Equal || Compare(r.sequence, e.sequence) == Greater
          || (!c.storing && e.expire.At? && e.expire.time <= c.now))
  }

  /** What one report does to the table: nothing unless heeded; a No-Path removes the route, any other report installs
      its own sequence and lifetime, through its sender, until the lifetime is over. */
  lemma OneReportExactly(table: map<Address, Entry>, r: Report, c: Context)
    ensures HandleOne(table, r, c)
         == if !Heeds(table, r, c) then table
            else if r.lifetime == 0 then table - {r.target}
            else table[r.target := Entry(c.via, r.sequence, r.lifetime,
                                         if r.lifetime == 0xFF then Never else At(c.now + r.lifetime * c.unit))]
  {
    hide Compare;
    if r.target in table {
      assert table[r.target := table[r.target]] == table;
    } else {
      assert table - {r.target} == table;
    }
  }

  /** And so how long a heeded report keeps its target within reach. */
  lemma RouteLastsExactly(table: map<Address, Entry>, r: Report, c: Context, t: Time)
    requires Heeds(table, r, c)
    ensures r.lifetime == 0 ==> r.target !in HandleOne(table, r, c)
    ensures r.lifetime != 0 ==>
              r.target in HandleOne(table, r, c)
              && (Alive(HandleOne(table, r, c)[r.target], t) <==> r.lifetime == 0xFF || t < c.now + r.lifetime * c.unit)
  {
    hide Heeds;
    OneReportExactly(table, r, c);
  }

  function HandleAll(table: map<Address, Entry>, rs: seq<Report>, c: Context): map<Address, Entry> {
    if rs == [] then table else HandleOne(HandleAll(table, rs[..|rs| - 1], c), rs[|rs| - 1], c)
  }

  function Changes(table: map<Address, Entry>, rs: seq<Report>, c: Context): seq<Report> {
    if rs == [] then []
    else
      var before, r := HandleAll(table, rs[..|rs| - 1], c), rs[|rs| - 1];
      Changes(table, rs[..|rs| - 1], c) +
      if Addressed(r, c) && Relays(Look(before, r.target), r, c) then [r] else []
  }

  /** A report a storing router has to tell its parent: not one to ignore, and a route lost, gained or renewed. */
  predicate IsNews(table: map<Address, Entry>, r: Report, c: Context) {
    && c.storing && !c.isRoot && Heeds(table, r, c)
    && (if r.lifetime == 0 then r.target in table
        else r.target !in table || Compare(r.sequence, table[r.target].sequence) == Greater)
  }

  /** One report more is relayed exactly when it is news to the table the others left. */
  lemma ChangesExactly(table: map<Address, Entry>, rs: seq<Report>, r: Report, c: Context)
    ensures Changes(table, rs + [r], c)
         == Changes(table, rs, c) + if IsNews(HandleAll(table, rs, c), r, c) then [r] else []
  {
    hide Compare;
    assert (rs + [r])[..|rs|] == rs && (rs + [r])[|rs|] == r;
  }

  ghost predicate Distinct(rs: seq<Report>) {
    forall i, j :: 0 <= i < j < |rs| ==> rs[i].target != rs[j].target
  }

  function FirstFor(rs: seq<Report>, x: Address): Option<Report> {
    if rs == [] then None else if rs[0].target == x then Some(rs[0]) else FirstFor(rs[1..], x)
  }

  function LastFor(rs: seq<Report>, x: Address): Option<Report> {
    if rs == [] then None
    else if rs[|rs| - 1].target == x then Some(rs[|rs| - 1]) else LastFor(rs[..|rs| - 1], x)
  }

  function Insert(ds: seq<Report>, r: Report): seq<Report> {
    if ds == [] then [r]
    else if ds[0].target == r.target then [r] + ds[1..]
    else [ds[0]] + Insert(ds[1..], r)
  }

  function Deduped(rs: seq<Report>): seq<Report> {
    if rs == [] then [] else Insert(Deduped(rs[..|rs| - 1]), rs[|rs| - 1])
  }

  lemma {:induction false} InsertHolds(ds: seq<Report>, r: Report)
    ensures forall d :: d in Insert(ds, r) ==> d == r || d in ds
    ensures (forall d :: d in ds ==> d.target != r.target) ==> Insert(ds, r) == ds + [r]
  {
    if ds != [] && ds[0].target != r.target {
      InsertHolds(ds[1..], r);
      assert ds == [ds[0]] + ds[1..];
    }
  }

  lemma {:induction false} InsertFinds(ds: seq<Report>, r: Report, x: Address)
    ensures FirstFor(Insert(ds, r), x) == if x == r.target then Some(r) else FirstFor(ds, x)
  {
    if ds != [] && ds[0].target != r.target {
      InsertFinds(ds[1..], r, x);
      assert ([ds[0]] + Insert(ds[1..], r))[1..] == Insert(ds[1..], r);
    } else if ds != [] {
      assert ([r] + ds[1..])[1..] == ds[1..];
    }
  }

  lemma DistinctCons(d: Report, rest: seq<Report>)
    ensures Distinct([d] + rest) <==> Distinct(rest) && forall e :: e in rest ==> e.target != d.target
  {
    var all := [d] + rest;
    if Distinct(all) {
      forall i, j | 0 <= i < j < |rest| ensures rest[i].target != rest[j].target {
        assert all[i + 1] == rest[i] && all[j + 1] == rest[j];
      }
      forall e | e in rest ensures e.target != d.target {
        var i :| 0 <= i < |rest| && rest[i] == e;
        assert all[0] == d && all[i + 1] == e;
      }
    }
  }

  lemma {:induction false} InsertIsDistinct(ds: seq<Report>, r: Report)
    requires Distinct(ds)
    ensures Distinct(Insert(ds, r))
  {
    if ds != [] {
      DistinctCons(ds[0], ds[1..]);
      assert ds == [ds[0]] + ds[1..];
      if ds[0].target != r.target {
        InsertIsDistinct(ds[1..], r);
        InsertHolds(ds[1..], r);
        DistinctCons(ds[0], Insert(ds[1..], r));
      } else {
        DistinctCons(r, ds[1..]);
      }
    }
  }

  lemma InsertKeepsDistinct(ds: seq<Report>, r: Report)
    requires Distinct(ds)
    ensures Distinct(Insert(ds, r))
    ensures forall d :: d in Insert(ds, r) ==> d == r || d in ds
    ensures forall x :: FirstFor(Insert(ds, r), x) == if x == r.target then Some(r) else FirstFor(ds, x)
    ensures (forall d :: d in ds ==> d.target != r.target) ==> Insert(ds, r) == ds + [r]
  {
    hide Insert, FirstFor, Distinct;
    InsertIsDistinct(ds, r);
    InsertHolds(ds, r);
    forall x ensures FirstFor(Insert(ds, r), x) == if x == r.target then Some(r) else FirstFor(ds, x) {
      InsertFinds(ds, r, x);
    }
  }

  lemma {:induction false} InsertAt(ds: seq<Report>, r: Report, k: nat)
    requires k <= |ds| && forall j :: 0 <= j < k ==> ds[j].target != r.target
    requires k < |ds| ==> ds[k].target == r.target
    ensures Insert(ds, r) == if k < |ds| then ds[k := r] else ds + [r]
  {
    if ds != [] && k > 0 {
      InsertAt(ds[1..], r, k - 1);
    }
  }

  lemma NothingFirst()
    ensures Distinct([]) && forall x :: FirstFor([], x) == None
  {
  }

  lemma DistinctFront(front: seq<Report>, last: Report)
    requires Distinct(front + [last])
    ensures Distinct(front) && forall r :: r in front ==> r.target != last.target
  {
    var all := front + [last];
    forall i, j | 0 <= i < j < |front| ensures front[i].target != front[j].target {
      assert all[i] == front[i] && all[j] == front[j];
    }
    forall r | r in front ensures r.target != last.target {
      var i :| 0 <= i < |front| && front[i] == r;
      assert all[i] == r && all[|front|] == last;
    }
  }

  /** One pair per target, with the content of the target's last occurrence; a message that names no target twice
      goes through unaltered. */
  lemma {:induction false} DedupedKeepsLast(rs: seq<Report>)
    ensures Distinct(Deduped(rs))
    ensures forall x :: FirstFor(Deduped(rs), x) == LastFor(rs, x)
    ensures forall d :: d in Deduped(rs) ==> d in rs
    ensures Distinct(rs) ==> Deduped(rs) == rs
  {
    hide Insert, Distinct, FirstFor;
    if rs == [] {
      NothingFirst();
    } else {
      var front, last := rs[..|rs| - 1], rs[|rs| - 1];
      DedupedKeepsLast(front);
      InsertKeepsDistinct(Deduped(front), last);
      assert rs == front + [last];
      if Distinct(rs) {
        DistinctFront(front, last);
      }
    }
  }

  method Dedupe(rs: seq<Report>) returns (ds: seq<Report>)
    ensures ds == Deduped(rs)
  {
    ds := [];
    var n := 0;
    while n < |rs|
      invariant 0 <= n <= |rs|
      invariant ds == Deduped(rs[..n])
    {
      var k := 0;
      while k < |ds| && ds[k].target != rs[n].target
        invariant 0 <= k <= |ds|
        invariant forall j :: 0 <= j < k ==> ds[j].target != rs[n].target
      {
        k := k + 1;
      }
      InsertAt(ds, rs[n], k);
      ds := if k < |ds| then ds[k := rs[n]] else ds + [rs[n]];
      assert rs[..n + 1][..n] == rs[..n];
      n := n + 1;
    }
    assert rs[..n] == rs;
  }

  /** A router that accepts DAOs for a DODAG. */
  class DaoReceiver {
    const storing: bool
    const isRoot: bool
    const dodagId: Address
    const unit: nat
    var own: Address
    var table: map<Address, Entry>

    constructor (storing: bool, isRoot: bool, dodagId: Address, own: Address, unit: nat)
      ensures this.storing == storing && this.isRoot == isRoot && this.dodagId == dodagId && this.unit == unit
      ensures this.own == own && table == map[]
    {
      this.storing, this.isRoot, this.dodagId, this.unit, this.own := storing, isRoot, dodagId, unit, own;
      table := map[];
    }

    function Seen(via: Address, now: Time): Context
      reads this
    {
      Context(via, now, unit, storing, isRoot, dodagId, own)
    }

    /** Applies one pair and says whether it has to be relayed. */
    method HandleOneTarget(r: Report, via: Address, now: Time) returns (changed: bool)
      modifies this`table
      ensures table == HandleOne(old(table), r, Seen(via, now))
      ensures changed == (Addressed(r, Seen(via, now)) && Relays(Look(old(table), r.target), r, Seen(via, now)))
    {
      changed := false;
      if r.target == ANY || r.target == dodagId || r.target == own {
        return;
      }
      if !storing && r.target in table && !Alive(table[r.target], now) {
        table := table - {r.target};
      }
      var isNew := r.target !in table;
      var order := if isNew then Greater else Compare(r.sequence, table[r.target].sequence);
      if order == Less || order == NotComparable {
        return;
      }
      changed := storing && !isRoot && if r.lifetime == 0 then !isNew else order == Greater;
      if r.lifetime == 0 {
        table := table - {r.target};
      } else {
        var expire := if r.lifetime == INFINITE_LIFETIME then Never else At(now + r.lifetime * unit);
        table := table[r.target := Entry(via, r.sequence, r.lifetime, expire)];
      }
    }

    /** Every pair in turn; what changed goes onward as one message, one pair per target. */
    method HandleDao(rs: seq<Report>, via: Address, now: Time) returns (relayed: seq<Report>)
      modifies this`table
      ensures table == HandleAll(old(table), rs, Seen(via, now))
      ensures relayed == Deduped(Changes(old(table), rs, Seen(via, now)))
    {
      var changes := [];
      var n := 0;
      while n < |rs|
        invariant 0 <= n <= |rs|
        invariant table == HandleAll(old(table), rs[..n], Seen(via, now))
        invariant changes == Changes(old(table), rs[..n], Seen(via, now))
      {
        assert rs[..n + 1][..n] == rs[..n];
        var changed := HandleOneTarget(rs[n], via, now);
        if changed {
          changes := changes + [rs[n]];
        }
        n := n + 1;
      }
      assert rs[..n] == rs;
      relayed := Dedupe(changes);
    }
  }

  lemma {:induction false} ChangesAreDistinct(table: map<Address, Entry>, rs: seq<Report>, c: Context)
    requires Distinct(rs)
    ensures Distinct(Changes(table, rs, c))
    ensures forall r :: r in Changes(table, rs, c) ==> r in rs
  {
    if rs != [] {
      var front, last := rs[..|rs| - 1], rs[|rs| - 1];
      ChangesAreDistinct(table, front, c);
      assert forall r :: r in Changes(table, front, c) ==> r in front && r.target != last.target;
    }
  }

  lemma {:induction false} TableAlone(table: map<Address, Entry>, rs: seq<Report>, c: Context, x: Address)
    requires Distinct(rs)
    ensures (forall r :: r in rs && Addressed(r, c) ==> r.target != x) ==>
              Look(HandleAll(table, rs, c), x) == Look(table, x)
    ensures forall r :: r in rs && r.target == x && Addressed(r, c) ==>
              Look(HandleAll(table, rs, c), x) == Updated(Look(table, x), r, c)
  {
    hide Updated, Addressed;
    if rs != [] {
      var front, last := rs[..|rs| - 1], rs[|rs| - 1];
      TableAlone(table, front, c, x);
      assert forall r :: r in front ==> r.target != last.target;
      assert forall r :: r in rs <==> r in front || r == last;
    }
  }

  lemma {:induction false} ChangesAlone(table: map<Address, Entry>, rs: seq<Report>, c: Context)
    requires Distinct(rs)
    ensures forall r :: r in Changes(table, rs, c) <==>
              r in rs && Addressed(r, c) && Relays(Look(table, r.target), r, c)
  {
    hide HandleAll, Relays, Addressed;
    if rs != [] {
      var front, last := rs[..|rs| - 1], rs[|rs| - 1];
      ChangesAlone(table, front, c);
      TableAlone(table, front, c, last.target);
      assert forall r :: r in front ==> r.target != last.target;
      assert forall r :: r in rs <==> r in front || r == last;
    }
  }

  /** In a message naming each target at most once, each pair acts on its own target alone. */
  lemma EachTargetAlone(table: map<Address, Entry>, rs: seq<Report>, c: Context, x: Address)
    requires Distinct(rs)
    ensures (forall r :: r in rs && Addressed(r, c) ==> r.target != x) ==>
              Look(HandleAll(table, rs, c), x) == Look(table, x)
    ensures forall r :: r in rs && r.target == x && Addressed(r, c) ==>
              Look(HandleAll(table, rs, c), x) == Updated(Look(table, x), r, c)
    ensures forall r :: r in Changes(table, rs, c) <==>
              r in rs && Addressed(r, c) && Relays(Look(table, r.target), r, c)
  {
    hide HandleAll, Changes, Updated, Relays, Addressed;
    TableAlone(table, rs, c, x);
    ChangesAlone(table, rs, c);
  }
}
