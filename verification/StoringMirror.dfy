/** A chain of storing-mode routers, the root at one end, DAOs flowing up through loss-free FIFO links. Every router
    holds the routes of the router below it, and next-hop lookups from the root walk down the chain. */
module StoringMirror {
  import opened Lollipop
  import opened RplTypes
  import opened DaoTable

  /** A router is known globally by one address and to its neighbours by another. */
  datatype Name = Name(own: Address, local: Address)

  /** Router i + 1 has router i as its DAO parent. links[i] holds the DAOs in flight from i + 1 to i, oldest first. */
  datatype Net = Net(tables: seq<map<Address, Entry>>, links: seq<seq<seq<Report>>>)

  datatype Event =
    | FromBelow(dao: seq<Report>, via: Address, now: Time)
    | Deliver(i: nat, now: Time)
    | Advertise(i: nat, dao: seq<Report>)
    | Withdraw(i: nat, sequence: Byte)
    | Forget(i: nat, x: Address)

  function Arriving(names: seq<Name>, i: nat, via: Address, now: Time, unit: nat): Context
    requires i < |names|
  {
    Context(via, now, unit, true, i == 0, names[0].own, names[i].own)
  }

  /** A router's periodic DAO: its own address, then every route it holds, each with the sequence and lifetime it
      was learnt with. */
  ghost predicate FullDao(table: map<Address, Entry>, own: Address, dao: seq<Report>) {
    && Distinct(dao) && dao != [] && dao[0].target == own
    && (forall r :: r in dao && r.target != own ==>
          r.target in table && r == Report(r.target, table[r.target].sequence, table[r.target].lifetime))
    && (forall a :: a in table && a != own ==> Report(a, table[a].sequence, table[a].lifetime) in dao)
  }

  function Send(net: Net, i: nat, dao: seq<Report>): Net
    requires 0 < i <= |net.links|
  {
    if dao == [] then net else net.(links := net.links[i - 1 := net.links[i - 1] + [dao]])
  }

  /** Router i handles a DAO and relays what changed. */
  function Receive(names: seq<Name>, unit: nat, net: Net, i: nat, dao: seq<Report>, via: Address, now: Time): Net
    requires i < |names| == |net.tables| && |net.links| == |names| - 1
  {
    var c := Arriving(names, i, via, now, unit);
    var relayed := Deduped(Changes(net.tables[i], dao, c));
    var next := net.(tables := net.tables[i := HandleAll(net.tables[i], dao, c)]);
    if i == 0 then next else Send(next, i, relayed)
  }

  /** A Forwarding-Error bounce at router i: its route to x goes, and nobody is told. */
  function Forgotten(net: Net, i: nat, x: Address): Net
    requires i < |net.tables|
  {
    net.(tables := net.tables[i := net.tables[i] - {x}])
  }

  ghost predicate Shaped(names: seq<Name>, net: Net) {
    |names| > 0 && |net.tables| == |names| && |net.links| == |names| - 1
  }

  ghost predicate Step(names: seq<Name>, unit: nat, net: Net, e: Event, net': Net)
    requires Shaped(names, net)
  {
    match e
    case FromBelow(dao, via, now) =>
      && NamesNoneOf(names, |names| - 1, dao)
      && TellsAll(net.tables[|names| - 1], dao, Arriving(names, |names| - 1, via, now, unit))
      && net' == Receive(names, unit, net, |names| - 1, dao, via, now)
    case Deliver(i, now) =>
      i < |net.links| && net.links[i] != []
      && net' == Receive(names, unit, net.(links := net.links[i := net.links[i][1..]]), i, net.links[i][0],
                         names[i + 1].local, now)
    case Advertise(i, dao) =>
      0 < i < |names| && FullDao(net.tables[i], names[i].own, dao) && net' == Send(net, i, dao)
    case Withdraw(i, sequence) =>
      0 < i < |names| && net' == Send(net, i, [Report(names[i].own, sequence, 0)])
    case Forget(i, x) =>
      i < |names| && Harmless(names, net, i, x) && net' == Forgotten(net, i, x)
  }

  /** The last change a message makes to x, which alone is relayed, is one that a holder of what was held before takes
      for stale: the message raised the sequence, withdrew, and then fell back below it. */
  predicate Outdated(table: map<Address, Entry>, dao: seq<Report>, c: Context, x: Address) {
    var last := LastFor(Changes(table, dao, c), x);
    last.Some? && x in table && Compare(last.value.sequence, table[x].sequence) in {Less, NotComparable}
  }

  ghost predicate TellsAll(table: map<Address, Entry>, dao: seq<Report>, c: Context) {
    forall x :: !Outdated(table, dao, c, x)
  }

  /** Some DAO on its way names x. */
  predicate NamedInFlight(link: seq<seq<Report>>, x: Address) {
    exists k :: 0 <= k < |link| && FirstFor(link[k], x).Some?
  }

  /** A bounce that loses nothing the mirror needs: there was no route, or it is the root's and a DAO in flight to it is
      about to say what becomes of x, or the mirror does not speak of x there. */
  ghost predicate Harmless(names: seq<Name>, net: Net, i: nat, x: Address)
    requires Shaped(names, net) && i < |names|
  {
    x !in net.tables[i]
    || (i == 0 && (|names| == 1 || x == names[1].own || NamedInFlight(net.links[0], x)))
  }

  /** No report names the address of one of the first `k` routers. */
  ghost predicate NamesNoneOf(names: seq<Name>, k: nat, dao: seq<Report>)
    requires k <= |names|
  {
    forall r, j :: r in dao && 0 <= j < k ==> r.target != names[j].own
  }

  ghost predicate Clean(names: seq<Name>, k: nat, dao: seq<Report>)
    requires k <= |names|
  {
    NamesNoneOf(names, k, dao) && forall r :: r in dao ==> r.target != ANY
  }

  /** The routers' addresses are proper and distinct. */
  ghost predicate ProperNames(names: seq<Name>) {
    && (forall i :: 0 <= i < |names| ==> names[i].own != ANY)
    && (forall i, j :: 0 <= i < j < |names| ==> names[i].own != names[j].own)
  }

  // ---------------------------------------------------------------- one target at a time

  function SequenceOf(table: map<Address, Entry>, x: Address): Option<Byte> {
    if x in table then Some(table[x].sequence) else None
  }

  /** A report that a holder of `held` takes for stale. */
  predicate TooOld(held: Option<Byte>, r: Option<Report>) {
    r.Some? && held.Some? && Compare(r.value.sequence, held.value) in {Less, NotComparable}
  }

  function Absorb(held: Option<Byte>, r: Option<Report>): Option<Byte> {
    if r.None? || TooOld(held, r) then held
    else if r.value.lifetime == 0 then None
    else Some(r.value.sequence)
  }

  /** What a table will hold of x once the DAOs in flight have arrived. */
  function Drained(held: Option<Byte>, link: seq<seq<Report>>, x: Address): Option<Byte>
    decreases |link|
  {
    if link == [] then held else Drained(Absorb(held, FirstFor(link[0], x)), link[1..], x)
  }

  /** No report on its way to a holder of `held` will be taken for stale. */
  predicate Taken(held: Option<Byte>, link: seq<seq<Report>>, x: Address)
    decreases |link|
  {
    link == []
    || (!TooOld(held, FirstFor(link[0], x)) && Taken(Absorb(held, FirstFor(link[0], x)), link[1..], x))
  }

  lemma {:induction false} TakenAppend(held: Option<Byte>, link: seq<seq<Report>>, dao: seq<Report>, x: Address)
    ensures Taken(held, link + [dao], x) <==> Taken(held, link, x) && !TooOld(Drained(held, link, x), FirstFor(dao, x))
    decreases |link|
  {
    if link == [] {
      assert (link + [dao])[1..] == [];
    } else {
      assert (link + [dao])[1..] == link[1..] + [dao];
      TakenAppend(Absorb(held, FirstFor(link[0], x)), link[1..], dao, x);
    }
  }

  /** What is forgotten is told again by the first DAO that names it, and only then. */
  lemma {:induction false} ToldAgainExactly(held: Option<Byte>, link: seq<seq<Report>>, x: Address)
    requires Taken(held, link, x) && held.Some?
    ensures Taken(None, link, x)
    ensures if NamedInFlight(link, x) then Drained(None, link, x) == Drained(held, link, x)
            else Drained(None, link, x) == None && Drained(held, link, x) == held
    decreases |link|
  {
    if link != [] && FirstFor(link[0], x).None? {
      ToldAgainExactly(held, link[1..], x);
      assert NamedInFlight(link[1..], x) ==> NamedInFlight(link, x) by {
        if k :| 0 <= k < |link[1..]| && FirstFor(link[1..][k], x).Some? {
          assert link[k + 1] == link[1..][k];
        }
      }
      assert NamedInFlight(link, x) ==> NamedInFlight(link[1..], x) by {
        if k :| 0 <= k < |link| && FirstFor(link[k], x).Some? {
          assert link[1..][k - 1] == link[k];
        }
      }
    }
  }

  lemma {:induction false} DrainedAppend(held: Option<Byte>, link: seq<seq<Report>>, dao: seq<Report>, x: Address)
    ensures Drained(held, link + [dao], x) == Absorb(Drained(held, link, x), FirstFor(dao, x))
    decreases |link|
  {
    if link == [] {
      assert (link + [dao])[1..] == [];
    } else {
      assert (link + [dao])[1..] == link[1..] + [dao];
      DrainedAppend(Absorb(held, FirstFor(link[0], x)), link[1..], dao, x);
    }
  }

  lemma {:induction false} FirstForIs(dao: seq<Report>, x: Address)
    requires Distinct(dao)
    ensures FirstFor(dao, x).Some? ==> FirstFor(dao, x).value in dao && FirstFor(dao, x).value.target == x
    ensures forall r :: r in dao && r.target == x ==> FirstFor(dao, x) == Some(r)
  {
    if dao != [] {
      FirstForIs(dao[1..], x);
      assert dao == [dao[0]] + dao[1..];
      if dao[0].target == x {
        forall r | r in dao && r.target == x ensures r == dao[0] {
          var j :| 0 <= j < |dao| && dao[j] == r;
        }
      }
    }
  }

  // ---------------------------------------------------------------- the invariant

  ghost predicate GoodTables(names: seq<Name>, net: Net)
    requires Shaped(names, net)
  {
    forall i :: 0 <= i < |names| ==>
      GoodTable(names, i, if i + 1 < |names| then Some(names[i + 1].local) else None, net.tables[i])
  }

  /** Router i's routes are to addresses neither its own nor an ancestor's, all through the router below. */
  ghost predicate GoodTable(names: seq<Name>, i: nat, below: Option<Address>, table: map<Address, Entry>)
    requires i < |names|
  {
    forall x :: x in table ==>
      && x != ANY && table[x].lifetime != 0 && (below.Some? ==> table[x].via == below.value)
      && forall j :: 0 <= j <= i ==> x != names[j].own
  }

  ghost predicate GoodLinks(names: seq<Name>, net: Net)
    requires Shaped(names, net)
  {
    forall i, m :: 0 <= i < |net.links| && m in net.links[i] ==> Distinct(m) && Clean(names, i + 1, m)
  }

  /** Once what is in flight has arrived, router i holds of x exactly what router i + 1 holds. */
  ghost predicate Mirrors(names: seq<Name>, net: Net, i: nat, x: Address)
    requires Shaped(names, net) && i < |net.links|
  {
    Drained(SequenceOf(net.tables[i], x), net.links[i], x) == SequenceOf(net.tables[i + 1], x)
  }

  /** And nothing of it will be taken for stale on the way. */
  ghost predicate Tracks(names: seq<Name>, net: Net, i: nat, x: Address)
    requires Shaped(names, net) && i < |net.links|
  {
    Mirrors(names, net, i, x) && Taken(SequenceOf(net.tables[i], x), net.links[i], x)
  }

  ghost predicate Good(names: seq<Name>, net: Net) {
    && Shaped(names, net) && ProperNames(names) && GoodTables(names, net) && GoodLinks(names, net)
    && forall i, x :: 0 <= i < |net.links| && x != names[i + 1].own ==> Tracks(names, net, i, x)
  }

  ghost predicate AllMirror(names: seq<Name>, net: Net)
    requires Shaped(names, net)
  {
    forall i, x :: 0 <= i < |net.links| && x != names[i + 1].own ==> Mirrors(names, net, i, x)
  }

  lemma {:induction false} ChangesArePart(table: map<Address, Entry>, dao: seq<Report>, c: Context)
    ensures forall r :: r in Changes(table, dao, c) ==> r in dao && Addressed(r, c)
    ensures c.isRoot ==> Changes(table, dao, c) == []
  {
    if dao != [] {
      var front := dao[..|dao| - 1];
      ChangesArePart(table, front, c);
      assert dao == front + [dao[|dao| - 1]];
    }
  }

  lemma {:induction false} LastIsPart(rs: seq<Report>, x: Address)
    ensures LastFor(rs, x).Some? ==> LastFor(rs, x).value in rs && LastFor(rs, x).value.target == x
    ensures LastFor(rs, x).None? ==> forall r :: r in rs ==> r.target != x
  {
    if rs != [] {
      LastIsPart(rs[..|rs| - 1], x);
      assert rs == rs[..|rs| - 1] + [rs[|rs| - 1]];
    }
  }

  lemma OneReportTells(before: map<Address, Entry>, r: Report, c: Context, x: Address)
    requires c.storing && !c.isRoot
    ensures var change := Addressed(r, c) && Relays(Look(before, r.target), r, c) && r.target == x;
            SequenceOf(HandleOne(before, r, c), x)
            == if !change then SequenceOf(before, x) else if r.lifetime == 0 then None else Some(r.sequence)
  {
    if x in before {
      CompareFlips(r.sequence, before[x].sequence);
    }
  }

  /** However often a message names x, the last change it makes tells what the table is left with. */
  lemma {:induction false} LastChangeTells(table: map<Address, Entry>, dao: seq<Report>, c: Context, x: Address)
    requires c.storing && !c.isRoot
    ensures var last := LastFor(Changes(table, dao, c), x);
            SequenceOf(HandleAll(table, dao, c), x)
            == if last.None? then SequenceOf(table, x)
               else if last.value.lifetime == 0 then None else Some(last.value.sequence)
  {
    if dao != [] {
      var front, r := dao[..|dao| - 1], dao[|dao| - 1];
      LastChangeTells(table, front, c, x);
      OneReportTells(HandleAll(table, front, c), r, c, x);
      assert Changes(table, front, c) + [] == Changes(table, front, c);
    }
  }

  /** Relaying has the same effect on a holder of what the table held as the message had on the table, if and only if
      the last change is not outdated. */
  lemma RelayTellsExactly(table: map<Address, Entry>, dao: seq<Report>, c: Context, x: Address)
    requires c.storing && !c.isRoot
    ensures Absorb(SequenceOf(table, x), FirstFor(Deduped(Changes(table, dao, c)), x))
            == SequenceOf(HandleAll(table, dao, c), x)
       <==> !Outdated(table, dao, c, x)
  {
    LastChangeTells(table, dao, c, x);
    DedupedKeepsLast(Changes(table, dao, c));
    if x in table && LastFor(Changes(table, dao, c), x).Some? {
      CompareFlips(LastFor(Changes(table, dao, c), x).value.sequence, table[x].sequence);
    }
  }

  /** A message that names no target twice is never outdated. */
  lemma DistinctIsNotOutdated(table: map<Address, Entry>, dao: seq<Report>, c: Context, x: Address)
    requires Distinct(dao)
    ensures !Outdated(table, dao, c, x)
  {
    EachTargetAlone(table, dao, c, x);
    LastIsPart(Changes(table, dao, c), x);
  }

  /** How handling a DAO that names no target twice looks from one target: the table absorbs its report. */
  lemma HandlingOneTarget(table: map<Address, Entry>, dao: seq<Report>, c: Context, x: Address)
    requires Distinct(dao) && c.storing && x != ANY && x != c.dodagId && x != c.own
    ensures SequenceOf(HandleAll(table, dao, c), x) == Absorb(SequenceOf(table, x), FirstFor(dao, x))
  {
    EachTargetAlone(table, dao, c, x);
    FirstForIs(dao, x);
    var r := FirstFor(dao, x);
    if r.Some? {
      assert Addressed(r.value, c);
      CompareFlips(r.value.sequence, if x in table then table[x].sequence else 0);
    }
  }

  /** Handling a DAO keeps the table's own invariants. */
  lemma {:induction false} HandlingKeepsTable(names: seq<Name>, table: map<Address, Entry>, dao: seq<Report>,
                                              c: Context, i: nat, below: Option<Address>)
    requires i < |names| && c.storing && c.dodagId == names[0].own && c.own == names[i].own
    requires NamesNoneOf(names, i, dao) && (below.Some? ==> below.value == c.via)
    requires GoodTable(names, i, below, table)
    ensures GoodTable(names, i, below, HandleAll(table, dao, c))
  {
    if dao != [] {
      var front, last := dao[..|dao| - 1], dao[|dao| - 1];
      assert forall r :: r in front ==> r in dao;
      HandlingKeepsTable(names, table, front, c, i, below);
      assert last in dao;
      assert Addressed(last, c) ==> forall j :: 0 <= j <= i ==> last.target != names[j].own;
    }
  }

  lemma SendKeepsLinks(names: seq<Name>, net: Net, i: nat, dao: seq<Report>)
    requires Shaped(names, net) && GoodLinks(names, net) && 0 < i < |names|
    requires Distinct(dao) && Clean(names, i, dao)
    ensures Shaped(names, Send(net, i, dao)) && GoodLinks(names, Send(net, i, dao))
  {
    var sent := Send(net, i, dao);
    forall k, m | 0 <= k < |sent.links| && m in sent.links[k]
      ensures Distinct(m) && Clean(names, k + 1, m)
    {
      assert m in net.links[k] || (k == i - 1 && m == dao);
    }
  }

  predicate NothingNew(held: Option<Byte>, r: Option<Report>) {
    Absorb(held, r) == held && !TooOld(held, r)
  }

  /** Sending a DAO that says of x what router i's own table does keeps the mirror. */
  lemma SendKeepsMirror(names: seq<Name>, net: Net, i: nat, dao: seq<Report>, j: nat, x: Address)
    requires Shaped(names, net) && 0 < i < |names| && j < |net.links|
    requires Tracks(names, net, j, x)
    requires j == i - 1 ==> NothingNew(SequenceOf(net.tables[i], x), FirstFor(dao, x))
    ensures Tracks(names, Send(net, i, dao), j, x)
  {
    if j == i - 1 && dao != [] {
      TakenAppend(SequenceOf(net.tables[j], x), net.links[j], dao, x);
      DrainedAppend(SequenceOf(net.tables[j], x), net.links[j], dao, x);
    }
  }

  /** Router i receiving a DAO, seen from the link it relays on and from the one the DAO came by. */
  lemma ReceiveKeepsMirror(names: seq<Name>, unit: nat, net: Net, i: nat, dao: seq<Report>, via: Address, now: Time,
                           j: nat, x: Address)
    requires Shaped(names, net) && i < |names| && j < |net.links|
    requires i < |net.links| ==> Distinct(dao) && Clean(names, i + 1, dao)
    requires !Outdated(net.tables[i], dao, Arriving(names, i, via, now, unit), x)
    requires x != names[j + 1].own
    requires j != i ==> Tracks(names, net, j, x)
    requires j == i ==> var held := Absorb(SequenceOf(net.tables[i], x), FirstFor(dao, x));
                        Drained(held, net.links[i], x) == SequenceOf(net.tables[i + 1], x)
                        && Taken(held, net.links[i], x)
    ensures Tracks(names, Receive(names, unit, net, i, dao, via, now), j, x)
  {
    if j == i {
      SameAbsorbed(net.tables[i], dao, Arriving(names, i, via, now, unit), x);
    } else if i > 0 && j == i - 1 {
      RelayKeepsMirrorExactly(names, unit, net, i, dao, via, now, x);
      RelayIsTaken(names, unit, net, i, dao, via, now, x);
    }
  }

  lemma RelayIsTaken(names: seq<Name>, unit: nat, net: Net, i: nat, dao: seq<Report>, via: Address, now: Time,
                     x: Address)
    requires Shaped(names, net) && 0 < i < |names| && Tracks(names, net, i - 1, x)
    requires !Outdated(net.tables[i], dao, Arriving(names, i, via, now, unit), x)
    ensures var next := Receive(names, unit, net, i, dao, via, now);
            Taken(SequenceOf(next.tables[i - 1], x), next.links[i - 1], x)
  {
    var c := Arriving(names, i, via, now, unit);
    var relayed := Deduped(Changes(net.tables[i], dao, c));
    DedupedKeepsLast(Changes(net.tables[i], dao, c));
    TakenAppend(SequenceOf(net.tables[i - 1], x), net.links[i - 1], relayed, x);
  }

  lemma SameAbsorbed(table: map<Address, Entry>, dao: seq<Report>, c: Context, x: Address)
    requires Distinct(dao) && c.storing
    requires forall r :: r in dao ==> r.target != ANY && r.target != c.dodagId && r.target != c.own
    ensures SequenceOf(HandleAll(table, dao, c), x) == Absorb(SequenceOf(table, x), FirstFor(dao, x))
  {
    if x != ANY && x != c.dodagId && x != c.own {
      HandlingOneTarget(table, dao, c, x);
    } else {
      FirstForIs(dao, x);
      EachTargetAlone(table, dao, c, x);
    }
  }

  /** Whatever the message, repeated targets and all, a router's mirror in its parent survives it if and only if the
      last change to x is not outdated. */
  lemma RelayKeepsMirrorExactly(names: seq<Name>, unit: nat, net: Net, i: nat, dao: seq<Report>, via: Address,
                                now: Time, x: Address)
    requires Shaped(names, net) && 0 < i < |names| && Mirrors(names, net, i - 1, x)
    ensures Mirrors(names, Receive(names, unit, net, i, dao, via, now), i - 1, x)
       <==> !Outdated(net.tables[i], dao, Arriving(names, i, via, now, unit), x)
  {
    var c := Arriving(names, i, via, now, unit);
    var relayed := Deduped(Changes(net.tables[i], dao, c));
    RelayTellsExactly(net.tables[i], dao, c, x);
    DrainedAppend(SequenceOf(net.tables[i - 1], x), net.links[i - 1], relayed, x);
    assert relayed == [] ==> FirstFor(relayed, x).None?;
  }

  lemma ReceiveKeepsShape(names: seq<Name>, unit: nat, net: Net, i: nat, dao: seq<Report>, via: Address, now: Time)
    requires Shaped(names, net) && ProperNames(names) && GoodTables(names, net) && GoodLinks(names, net) && i < |names|
    requires NamesNoneOf(names, i, dao)
    requires i + 1 < |names| ==> via == names[i + 1].local
    ensures var next := Receive(names, unit, net, i, dao, via, now);
            Shaped(names, next) && GoodTables(names, next) && GoodLinks(names, next)
  {
    hide HandleAll, Changes, Deduped, Distinct, GoodTable;
    var c := Arriving(names, i, via, now, unit);
    HandlingKeepsTable(names, net.tables[i], dao, c, i, if i + 1 < |names| then Some(names[i + 1].local) else None);
    ChangesArePart(net.tables[i], dao, c);
    DedupedKeepsLast(Changes(net.tables[i], dao, c));
    var relayed := Deduped(Changes(net.tables[i], dao, c));
    var next := net.(tables := net.tables[i := HandleAll(net.tables[i], dao, c)]);
    if i > 0 {
      SendKeepsLinks(names, next, i, relayed);
    }
  }

  lemma DeliverIsGood(names: seq<Name>, unit: nat, net: Net, i: nat, now: Time, net': Net)
    requires Good(names, net) && Step(names, unit, net, Deliver(i, now), net')
    ensures Good(names, net')
  {
    var dao, via := net.links[i][0], names[i + 1].local;
    var popped := net.(links := net.links[i := net.links[i][1..]]);
    assert GoodLinks(names, popped) by {
      forall k, m | 0 <= k < |popped.links| && m in popped.links[k] ensures Distinct(m) && Clean(names, k + 1, m) {
        assert m in net.links[k];
      }
    }
    assert dao in net.links[i];
    assert Distinct(dao) && Clean(names, i + 1, dao);
    ReceiveKeepsShape(names, unit, popped, i, dao, via, now);
    forall j, x | 0 <= j < |net'.links| && x != names[j + 1].own ensures Tracks(names, net', j, x) {
      assert Tracks(names, net, j, x);
      assert j != i ==> Tracks(names, popped, j, x);
      DistinctIsNotOutdated(net.tables[i], dao, Arriving(names, i, via, now, unit), x);
      ReceiveKeepsMirror(names, unit, popped, i, dao, via, now, j, x);
    }
  }

  /** Every event keeps the invariant. */
  lemma StepIsGood(names: seq<Name>, unit: nat, net: Net, e: Event, net': Net)
    requires Good(names, net) && Step(names, unit, net, e, net')
    ensures Good(names, net')
  {
    match e
    case FromBelow(dao, via, now) =>
      var n := |names| - 1;
      ReceiveKeepsShape(names, unit, net, n, dao, via, now);
      forall j, x | 0 <= j < |net'.links| && x != names[j + 1].own ensures Tracks(names, net', j, x) {
        ReceiveKeepsMirror(names, unit, net, n, dao, via, now, j, x);
      }
    case Deliver(i, now) =>
      DeliverIsGood(names, unit, net, i, now, net');
    case Advertise(i, dao) =>
      FullDaoIsNothingNew(names, net, i, dao);
      SendKeepsLinks(names, net, i, dao);
      forall j, x | 0 <= j < |net'.links| && x != names[j + 1].own ensures Tracks(names, net', j, x) {
        SendKeepsMirror(names, net, i, dao, j, x);
      }
    case Withdraw(i, sequence) =>
      var dao := [Report(names[i].own, sequence, 0)];
      SendKeepsLinks(names, net, i, dao);
      forall j, x | 0 <= j < |net'.links| && x != names[j + 1].own ensures Tracks(names, net', j, x) {
        FirstForIs(dao, x);
        SendKeepsMirror(names, net, i, dao, j, x);
      }
    case Forget(i, x) =>
      BounceKeepsMirrorExactly(names, net, i, x);
  }

  /** A Forwarding-Error bounce, at any moment of any run, keeps the mirror if and only if it is harmless. */
  lemma BounceKeepsMirrorExactly(names: seq<Name>, net: Net, i: nat, x: Address)
    requires Good(names, net) && i < |names|
    ensures AllMirror(names, Forgotten(net, i, x)) <==> Harmless(names, net, i, x)
    ensures Harmless(names, net, i, x) ==> Good(names, Forgotten(net, i, x))
  {
    var after := Forgotten(net, i, x);
    assert forall y :: y != x ==> SequenceOf(after.tables[i], y) == SequenceOf(net.tables[i], y);
    assert SequenceOf(after.tables[i], x) == None;
    assert GoodTables(names, after) && GoodLinks(names, after);
    if x !in net.tables[i] {
      assert after.tables[i] == net.tables[i];
      assert after.tables == net.tables;
    } else if i > 0 {
      assert Tracks(names, net, i - 1, x);
      assert !Mirrors(names, after, i - 1, x);
    } else {
      forall j, y | 0 <= j < |net.links| && y != names[j + 1].own && (j != 0 || y != x)
        ensures Tracks(names, after, j, y)
      {
        assert Tracks(names, net, j, y);
      }
      if |names| > 1 && x != names[1].own {
        assert Tracks(names, net, 0, x);
        ToldAgainExactly(SequenceOf(net.tables[0], x), net.links[0], x);
        assert Mirrors(names, after, 0, x) <==> NamedInFlight(net.links[0], x);
        assert NamedInFlight(net.links[0], x) ==> Tracks(names, after, 0, x);
      }
      assert Harmless(names, net, i, x) ==> Good(names, after);
    }
    assert Good(names, after) ==> AllMirror(names, after) by {
      if Good(names, after) {
        forall j, y | 0 <= j < |net.links| && y != names[j + 1].own ensures Mirrors(names, after, j, y) {
          assert Tracks(names, after, j, y);
        }
      }
    }
  }

  /** A withdrawal removes a held route and is relayed; of a route not held it removes nothing and goes no further. */
  lemma WithdrawalAlone(table: map<Address, Entry>, r: Report, c: Context)
    requires c.storing && !c.isRoot && Addressed(r, c) && r.lifetime == 0
    requires r.target in table ==> Compare(r.sequence, table[r.target].sequence) == Greater
    ensures HandleAll(table, [r], c) == table - {r.target}
    ensures Deduped(Changes(table, [r], c)) == if r.target in table then [r] else []
  {
    assert [r][..0] == [];
    assert HandleAll(table, [], c) == table && Changes(table, [], c) == [];
    assert Changes(table, [r], c) == if r.target in table then [r] else [];
    assert Deduped([]) == [] && Deduped([r]) == Insert([], r);
  }

  /** A bounce in the middle of a chain while a withdrawal is on its way: the withdrawal finds nothing to remove and
      goes no further, and the root is left with a route no router below it holds. */
  lemma BounceBreaksMirror()
    ensures var names := [Name(1, 101), Name(2, 102), Name(3, 103)];
            var net := Net([map[9 := Entry(102, 5, 30, Never)], map[9 := Entry(103, 5, 30, Never)],
                            map[9 := Entry(109, 5, 30, Never)]], [[], []]);
            var withdrawn := Receive(names, 60, net, 2, [Report(9, 6, 0)], 109, 0);
            var bounced := Forgotten(withdrawn, 1, 9);
            var after := Receive(names, 60, bounced.(links := [[], []]), 1, [Report(9, 6, 0)], 103, 0);
            && Mirrors(names, net, 0, 9) && Mirrors(names, net, 1, 9) && withdrawn.links == [[], [[Report(9, 6, 0)]]]
            && after == Net([map[9 := Entry(102, 5, 30, Never)], map[], map[]], [[], []])
  {
    hide HandleAll, Changes, Deduped;
    var names, dao := [Name(1, 101), Name(2, 102), Name(3, 103)], [Report(9, 6, 0)];
    var top, middle, low := map[9 := Entry(102, 5, 30, Never)], map[9 := Entry(103, 5, 30, Never)],
                            map[9 := Entry(109, 5, 30, Never)];
    var empty: map<Address, Entry> := map[];
    var net := Net([top, middle, low], [[], []]);
    assert low - {9} == empty && middle - {9} == empty && empty - {9} == empty;
    WithdrawalAlone(low, dao[0], Arriving(names, 2, 109, 0, 60));
    WithdrawalAlone(empty, dao[0], Arriving(names, 1, 103, 0, 60));
    var withdrawn := Receive(names, 60, net, 2, dao, 109, 0);
    assert net.tables[2 := empty] == [top, middle, empty] && net.links[1 := [dao]] == [[], [dao]];
    assert net.links[1] + [dao] == [dao];
    assert withdrawn == Net([top, middle, empty], [[], [dao]]);
    var popped := Forgotten(withdrawn, 1, 9).(links := [[], []]);
    assert withdrawn.tables[1 := empty] == [top, empty, empty] && popped.tables[1 := empty] == popped.tables;
    assert Receive(names, 60, popped, 1, dao, 103, 0) == popped;
  }

  lemma FullDaoIsNothingNew(names: seq<Name>, net: Net, i: nat, dao: seq<Report>)
    requires Shaped(names, net) && ProperNames(names) && GoodTables(names, net) && 0 < i < |names|
    requires FullDao(net.tables[i], names[i].own, dao)
    ensures Clean(names, i, dao)
    ensures forall x :: x != names[i].own ==> NothingNew(SequenceOf(net.tables[i], x), FirstFor(dao, x))
  {
    forall x | x != names[i].own
      ensures NothingNew(SequenceOf(net.tables[i], x), FirstFor(dao, x))
    {
      FirstForIs(dao, x);
    }
  }

  // ---------------------------------------------------------------- whole runs

  ghost predicate Empty(names: seq<Name>, net: Net) {
    Shaped(names, net) && (forall i :: 0 <= i < |names| ==> net.tables[i] == map[])
    && forall i :: 0 <= i < |net.links| ==> net.links[i] == []
  }

  ghost predicate Run(names: seq<Name>, unit: nat, nets: seq<Net>, events: seq<Event>) {
    && |nets| == |events| + 1 && Empty(names, nets[0])
    && forall k :: 0 <= k < |events| ==> Shaped(names, nets[k]) && Step(names, unit, nets[k], events[k], nets[k + 1])
  }

  lemma {:induction false} RunIsGood(names: seq<Name>, unit: nat, nets: seq<Net>, events: seq<Event>, k: nat)
    requires ProperNames(names) && Run(names, unit, nets, events) && k < |nets|
    ensures Good(names, nets[k])
  {
    if k > 0 {
      RunIsGood(names, unit, nets, events, k - 1);
      assert Step(names, unit, nets[k - 1], events[k - 1], nets[k]);
      StepIsGood(names, unit, nets[k - 1], events[k - 1], nets[k]);
    }
  }

  ghost predicate Quiet(net: Net) {
    forall i :: 0 <= i < |net.links| ==> net.links[i] == []
  }

  /** After any run, once nothing is in flight, router i holds exactly the targets and Path Sequences router i + 1
      holds, besides router i + 1's own address. */
  lemma TablesMirror(names: seq<Name>, unit: nat, nets: seq<Net>, events: seq<Event>, k: nat, i: nat)
    requires ProperNames(names) && Run(names, unit, nets, events) && k < |nets|
    requires Shaped(names, nets[k]) && Quiet(nets[k]) && i + 1 < |names|
    ensures nets[k].tables[i].Keys - {names[i + 1].own} == nets[k].tables[i + 1].Keys
    ensures forall x :: x in nets[k].tables[i + 1] ==>
              nets[k].tables[i][x].sequence == nets[k].tables[i + 1][x].sequence
  {
    RunIsGood(names, unit, nets, events, k);
    var net := nets[k];
    forall x | x != names[i + 1].own
      ensures SequenceOf(net.tables[i], x) == SequenceOf(net.tables[i + 1], x)
    {
      assert Tracks(names, net, i, x);
    }
    assert names[i + 1].own !in net.tables[i + 1];
    forall x | x != names[i + 1].own
      ensures x in net.tables[i] <==> x in net.tables[i + 1]
      ensures x in net.tables[i] ==> net.tables[i][x].sequence == net.tables[i + 1][x].sequence
    {
      assert SequenceOf(net.tables[i], x) == SequenceOf(net.tables[i + 1], x);
    }
  }

  /** Where a packet for x is handed over from router i, hop by hop by each router's own table: the router whose
      address x is, the bottom router once it forwards x out of the chain, or None where some table has no entry or
      points anywhere but one router down. */
  function Handover(names: seq<Name>, net: Net, i: nat, x: Address): (last: Option<nat>)
    requires |names| == |net.tables| && i < |names|
    ensures last.Some? ==> i <= last.value < |names|
    decreases |names| - i
  {
    if x == names[i].own then Some(i)
    else if x !in net.tables[i] then None
    else if i == |names| - 1 then Some(i)
    else if net.tables[i][x].via == names[i + 1].local then Handover(names, net, i + 1, x)
    else None
  }

  lemma {:induction false} WalksDown(names: seq<Name>, net: Net, i: nat, x: Address)
    requires Good(names, net) && Quiet(net) && i < |names| && x in net.tables[i]
    ensures Handover(names, net, i, x).Some?
    ensures var last := Handover(names, net, i, x).value;
            x == names[last].own || (last == |names| - 1 && x in net.tables[last])
    decreases |names| - i
  {
    if i + 1 < |names| && x != names[i + 1].own {
      assert Tracks(names, net, i, x);
      assert SequenceOf(net.tables[i], x).Some?;
      WalksDown(names, net, i + 1, x);
    }
  }

  lemma {:induction false} KnownAbove(names: seq<Name>, net: Net, i: nat, x: Address)
    requires Good(names, net) && Quiet(net) && i < |names| && x in net.tables[i]
    ensures x in net.tables[0]
  {
    if i > 0 {
      assert Tracks(names, net, i - 1, x);
      assert SequenceOf(net.tables[i], x).Some?;
      KnownAbove(names, net, i - 1, x);
    }
  }

  /** After any run, once nothing is in flight, every target any router of the chain holds is held by the root, and
      from the root the routers' own next hops lead down to the target's router or out of the bottom. */
  lemma EveryTargetIsReached(names: seq<Name>, unit: nat, nets: seq<Net>, events: seq<Event>, k: nat, i: nat,
                             x: Address)
    requires ProperNames(names) && Run(names, unit, nets, events) && k < |nets|
    requires Shaped(names, nets[k]) && Quiet(nets[k]) && i < |names| && x in nets[k].tables[i]
    ensures x in nets[k].tables[0] && Handover(names, nets[k], 0, x).Some?
    ensures var last := Handover(names, nets[k], 0, x).value;
            x == names[last].own || (last == |names| - 1 && x in nets[k].tables[last])
  {
    RunIsGood(names, unit, nets, events, k);
    KnownAbove(names, nets[k], i, x);
    WalksDown(names, nets[k], 0, x);
  }

  /** The mirror needs each DAO to name a target at most once: a withdrawal and an older advertisement of one target
      in one DAO leave the child with the advertisement, which it relays alone, and the parent, still holding the
      newer sequence, takes it for stale. */
  lemma RepeatedTargetBreaksMirror()
    ensures var names := [Name(1, 101), Name(2, 102)];
            var dao := [Report(9, 5, 0), Report(9, 4, 30)];
            var held := map[9 := Entry(102, 5, 30, Never)];
            var net := Net([held, held], [[]]);
            var after := Receive(names, 60, net, 1, dao, 109, 0);
            && Mirrors(names, net, 0, 9) && after.links[0] == [[Report(9, 4, 30)]] && !Mirrors(names, after, 0, 9)
  {
    var names := [Name(1, 101), Name(2, 102)];
    var dao := [Report(9, 5, 0), Report(9, 4, 30)];
    var held := map[9 := Entry(102, 5, 30, Never)];
    var net := Net([held, held], [[]]);
    var c := Arriving(names, 1, 109, 0, 60);
    assert dao[..1] == [Report(9, 5, 0)] && dao[..1][..0] == [];
    assert HandleAll(held, [], c) == held;
    assert HandleAll(held, dao[..1], c) == map[];
    assert HandleAll(held, dao, c) == map[9 := Entry(109, 4, 30, At(1800))];
    assert Changes(held, dao[..1], c) == [Report(9, 5, 0)];
    assert Changes(held, dao, c) == dao;
    assert Deduped(dao[..1]) == [Report(9, 5, 0)];
    assert Deduped(dao) == [Report(9, 4, 30)];
    var after := Receive(names, 60, net, 1, dao, 109, 0);
    assert after.links[0] == [[Report(9, 4, 30)]];
    assert Compare(4, 5) == Less;
    assert after.links[0][1..] == [];
    assert Drained(Some(5), after.links[0], 9) == Some(5);
  }
}
