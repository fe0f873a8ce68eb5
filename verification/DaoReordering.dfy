/** DAOs for one target arriving in any order. Path Sequences are wire values of one lollipop counter; each message
    carries the unbounded count of increments behind its value, which only the proofs see. */
module DaoReordering {
  import opened Lollipop
  import opened RplTypes
  import opened DaoTable
  import opened ParentSelection

  datatype Message = Message(count: nat, lifetime: Byte, via: Address)
  datatype Delivery = Delivery(message: Message, at: Time)

  /** The counter's starting value, the target, and the receiver. */
  datatype Setting = Setting(start: Byte, target: Address, unit: nat, storing: bool, isRoot: bool,
                             dodagId: Address, own: Address)

  function Sent(s: Setting, m: Message): Report {
    Report(s.target, Wire(s.start, m.count), m.lifetime)
  }

  function ContextOf(s: Setting, d: Delivery): Context {
    Context(d.message.via, d.at, s.unit, s.storing, s.isRoot, s.dodagId, s.own)
  }

  function After(s: Setting, e: Option<Entry>, ds: seq<Delivery>): Option<Entry> {
    if ds == [] then e
    else
      var d := ds[|ds| - 1];
      Updated(After(s, e, ds[..|ds| - 1]), Sent(s, d.message), ContextOf(s, d))
  }

  /** Nothing the deliveries install expires while they last. */
  ghost predicate NoExpiry(s: Setting, ds: seq<Delivery>) {
    forall i, j :: 0 <= i < |ds| && 0 <= j < |ds| && ds[i].message.lifetime !in {0, INFINITE_LIFETIME} ==>
      ds[i].at + ds[i].message.lifetime * s.unit > ds[j].at
  }

  /** `top` is the message of the unique highest count, all others are within the window below it. */
  ghost predicate Topped(ds: seq<Delivery>, top: Message) {
    && (exists d :: d in ds && d.message == top)
    && forall d :: d in ds ==> d.message.count <= top.count <= d.message.count + SEQUENCE_WINDOW
                               && (d.message.count == top.count ==> d.message == top)
  }

  ghost predicate Installed(s: Setting, e: Option<Entry>, m: Message) {
    e.Some? && e.value.via == m.via && e.value.sequence == Wire(s.start, m.count) && e.value.lifetime == m.lifetime
  }

  /** The entry held is one of the deliveries', or the initial one. */
  ghost predicate Explained(s: Setting, e: Option<Entry>, ds: seq<Delivery>, initial: Option<Entry>) {
    e.None? || e == initial
    || exists d :: d in ds && d.message.lifetime != 0 && Installed(s, e, d.message)
                   && e.value.expire == ExpiryOf(d.message.lifetime, ContextOf(s, d))
  }

  lemma {:induction false} EntryIsExplained(s: Setting, e: Option<Entry>, ds: seq<Delivery>)
    ensures Explained(s, After(s, e, ds), ds, e)
  {
    if ds != [] {
      var front, d := ds[..|ds| - 1], ds[|ds| - 1];
      EntryIsExplained(s, e, front);
      assert forall x :: x in front ==> x in ds;
      var held := After(s, e, front);
      var next := After(s, e, ds);
      if next.Some? && next != held {
        assert Installed(s, next, d.message);
      }
    }
  }

  /** The initial entry, if any, is an older report of the same counter that outlives the deliveries. */
  ghost predicate OldEntry(s: Setting, e: Option<Entry>, ds: seq<Delivery>, top: Message, count: nat) {
    e.Some? ==>
      && count < top.count <= count + SEQUENCE_WINDOW && e.value.sequence == Wire(s.start, count)
      && forall d :: d in ds ==> Alive(e.value, d.at)
  }

  /** The entry is alive exactly until the lifetime of `d` is over. */
  ghost predicate LastsAs(s: Setting, e: Option<Entry>, d: Delivery) {
    e.Some?
    && forall t: Time :: Alive(e.value, t) <==> d.message.lifetime == 0xFF || t < d.at + d.message.lifetime * s.unit
  }

  /** Whatever the order of delivery, duplicates included, the table ends with the highest advertisement, which is
      alive exactly until its lifetime is over since one of its deliveries. */
  lemma {:induction false} HighestAdvertisementWins(s: Setting, e: Option<Entry>, count: nat, ds: seq<Delivery>,
                                                    top: Message)
    requires Topped(ds, top) && top.lifetime != 0
    requires NoExpiry(s, ds) && OldEntry(s, e, ds, top, count)
    ensures Installed(s, After(s, e, ds), top)
    ensures exists d :: d in ds && d.message == top && LastsAs(s, After(s, e, ds), d)
  {
    hide NoExpiry, OldEntry, Superseded, Wire, Compare;
    var front, d := ds[..|ds| - 1], ds[|ds| - 1];
    assert ds == front + [d];
    HeldIsKept(s, e, ds, top, count, front, d);
    if d.message == top {
      if After(s, e, front).Some? {
        TopBeatsHeld(s, e, ds, top, count, front);
      }
      AdvertisementInstalls(s, After(s, e, front), d);
    } else {
      FewerDeliveries(s, e, ds, top, count, front);
      HighestAdvertisementWins(s, e, count, front, top);
      LowerIsStale(s, After(s, e, front), d, top);
    }
    InstalledLasts(s, e, count, ds, top);
  }

  lemma InstalledLasts(s: Setting, e: Option<Entry>, count: nat, ds: seq<Delivery>, top: Message)
    requires Topped(ds, top) && OldEntry(s, e, ds, top, count) && Installed(s, After(s, e, ds), top)
    ensures exists d :: d in ds && d.message == top && LastsAs(s, After(s, e, ds), d)
  {
    hide After, Compare, Wire;
    EntryIsExplained(s, e, ds);
    if After(s, e, ds) == e {
      WindowIsExact(s.start, top.count, count);
      SameIsEqual(Wire(s.start, top.count), Wire(s.start, count));
    } else {
      var d :| d in ds && d.message.lifetime != 0 && Installed(s, After(s, e, ds), d.message)
               && After(s, e, ds).value.expire == ExpiryOf(d.message.lifetime, ContextOf(s, d));
      WindowIsExact(s.start, top.count, d.message.count);
      SameIsEqual(Wire(s.start, top.count), Wire(s.start, d.message.count));
      assert d.message == top;
      assert LastsAs(s, After(s, e, ds), d);
    }
  }

  lemma SameIsEqual(a: Byte, b: Byte)
    ensures a == b <==> Compare(a, b) == Equal
  {
  }

  lemma FewerDeliveries(s: Setting, e: Option<Entry>, ds: seq<Delivery>, top: Message, count: nat,
                        front: seq<Delivery>)
    requires NoExpiry(s, ds) && OldEntry(s, e, ds, top, count) && ds != [] && front == ds[..|ds| - 1]
    ensures NoExpiry(s, front) && OldEntry(s, e, front, top, count)
  {
    assert forall x :: x in front ==> x in ds;
  }

  lemma AdvertisementInstalls(s: Setting, held: Option<Entry>, d: Delivery)
    requires d.message.lifetime != 0 && Held(held, ContextOf(s, d)) == held
    requires held.Some? ==> !Superseded(held, Wire(s.start, d.message.count))
    ensures Installed(s, Updated(held, Sent(s, d.message), ContextOf(s, d)), d.message)
  {
    hide Wire, Compare;
  }

  lemma LowerIsStale(s: Setting, held: Option<Entry>, d: Delivery, top: Message)
    requires Installed(s, held, top) && Held(held, ContextOf(s, d)) == held
    requires d.message.count < top.count <= d.message.count + SEQUENCE_WINDOW
    ensures Updated(held, Sent(s, d.message), ContextOf(s, d)) == held
  {
    hide Wire, Compare;
    WindowIsExact(s.start, d.message.count, top.count);
  }

  lemma HeldIsKept(s: Setting, e: Option<Entry>, ds: seq<Delivery>, top: Message, count: nat,
                   front: seq<Delivery>, d: Delivery)
    requires NoExpiry(s, ds) && OldEntry(s, e, ds, top, count)
    requires ds != [] && front == ds[..|ds| - 1] && d == ds[|ds| - 1]
    ensures Held(After(s, e, front), ContextOf(s, d)) == After(s, e, front)
  {
    hide After, Wire;
    var held := After(s, e, front);
    EntryIsExplained(s, e, front);
    assert d in ds;
    if held.Some? && held != e {
      var x :| x in front && x.message.lifetime != 0 && Installed(s, held, x.message)
               && held.value.expire == ExpiryOf(x.message.lifetime, ContextOf(s, x));
      var i :| 0 <= i < |front| && front[i] == x;
      assert ds[i] == x && ds[|ds| - 1] == d;
    }
  }

  lemma TopBeatsHeld(s: Setting, e: Option<Entry>, ds: seq<Delivery>, top: Message, count: nat, front: seq<Delivery>)
    requires Topped(ds, top) && OldEntry(s, e, ds, top, count)
    requires ds != [] && front == ds[..|ds| - 1] && After(s, e, front).Some?
    ensures !Superseded(After(s, e, front), Wire(s.start, top.count))
  {
    var held := After(s, e, front);
    EntryIsExplained(s, e, front);
    if held == e {
      WindowIsExact(s.start, top.count, count);
    } else {
      var x :| x in front && x.message.lifetime != 0 && Installed(s, held, x.message);
      assert x in ds;
      WindowIsExact(s.start, top.count, x.message.count);
    }
  }

  // ---------------------------------------------------------------- the exact condition

  function AtOnce(ms: seq<Message>): seq<Delivery> {
    seq(|ms|, i requires 0 <= i < |ms| => Delivery(ms[i], 0))
  }

  ghost predicate OrderFree(s: Setting, ms: seq<Message>) {
    forall other: seq<Message> :: multiset(other) == multiset(ms) ==>
      After(s, None, AtOnce(other)) == After(s, None, AtOnce(ms))
  }

  ghost predicate Window(ms: seq<Message>, top: Message) {
    && top in ms
    && forall m :: m in ms ==> m.count <= top.count <= m.count + SEQUENCE_WINDOW && (m.count == top.count ==> m == top)
  }

  lemma AtOnceIsTopped(ms: seq<Message>, top: Message)
    requires Window(ms, top)
    ensures Topped(AtOnce(ms), top)
  {
    var i :| 0 <= i < |ms| && ms[i] == top;
    assert AtOnce(ms)[i].message == top;
  }

  lemma {:induction false} WithdrawalsLeaveNothing(s: Setting, ms: seq<Message>)
    requires forall m :: m in ms ==> m.lifetime == 0
    ensures After(s, None, AtOnce(ms)).None?
  {
    if ms != [] {
      var n := |ms| - 1;
      WithdrawalsLeaveNothing(s, ms[..n]);
      assert AtOnce(ms)[..n] == AtOnce(ms[..n]);
      assert ms[n] in ms;
    }
  }

  lemma LastStep(s: Setting, ms: seq<Message>, m: Message)
    ensures After(s, None, AtOnce(ms + [m])) ==
            Updated(After(s, None, AtOnce(ms)), Sent(s, m), ContextOf(s, Delivery(m, 0)))
  {
    assert AtOnce(ms + [m])[..|ms|] == AtOnce(ms);
  }

  /** Delivering a highest withdrawal last leaves nothing behind. */
  lemma WithdrawalLast(s: Setting, ms: seq<Message>, top: Message)
    requires s.unit > 0 && top.lifetime == 0
    requires Window(ms + [top], top)
    ensures After(s, None, AtOnce(ms + [top])).None?
  {
    var held := After(s, None, AtOnce(ms));
    LastStep(s, ms, top);
    if held.Some? {
      AtOnceIsTopped(ms + [top], top);
      assert AtOnce(ms + [top])[..|ms|] == AtOnce(ms);
      NothingExpiresAtOnce(s, ms + [top]);
      HeldIsKept(s, None, AtOnce(ms + [top]), top, 0, AtOnce(ms), Delivery(top, 0));
      TopBeatsHeld(s, None, AtOnce(ms + [top]), top, 0, AtOnce(ms));
    }
  }

  /** With entries that last, the table is the same for every order of delivery if and only if the highest message is an
      advertisement or the batch holds none: a withdrawal makes the table forget the Path Sequence, so an older
      advertisement arriving after it is taken for a new one. */
  lemma OrderFreeExactly(s: Setting, ms: seq<Message>, top: Message)
    requires s.unit > 0 && Window(ms, top)
    ensures OrderFree(s, ms) <==> top.lifetime != 0 || forall m :: m in ms ==> m.lifetime == 0
  {
    if top.lifetime != 0 {
      forall other: seq<Message> | multiset(other) == multiset(ms)
        ensures After(s, None, AtOnce(other)) == After(s, None, AtOnce(ms))
      {
        SameMembers(other, ms);
        TopInstalled(s, ms, top);
        TopInstalled(s, other, top);
      }
    } else if forall m :: m in ms ==> m.lifetime == 0 {
      forall other: seq<Message> | multiset(other) == multiset(ms)
        ensures After(s, None, AtOnce(other)) == After(s, None, AtOnce(ms))
      {
        SameMembers(other, ms);
        WithdrawalsLeaveNothing(s, ms);
        WithdrawalsLeaveNothing(s, other);
      }
    } else {
      OrderMatters(s, ms, top);
    }
  }

  lemma SameMembers(a: seq<Message>, b: seq<Message>)
    requires multiset(a) == multiset(b)
    ensures forall m :: m in a <==> m in b
  {
    assert forall m :: m in a <==> m in multiset(a);
    assert forall m :: m in b <==> m in multiset(b);
  }

  lemma TopInstalled(s: Setting, ms: seq<Message>, top: Message)
    requires s.unit > 0 && Window(ms, top) && top.lifetime != 0
    ensures After(s, None, AtOnce(ms)) == Some(Entry(top.via, Wire(s.start, top.count), top.lifetime,
                                                     ExpiryOf(top.lifetime, ContextOf(s, Delivery(top, 0)))))
  {
    AtOnceIsTopped(ms, top);
    NothingExpiresAtOnce(s, ms);
    HighestAdvertisementWins(s, None, 0, AtOnce(ms), top);
    EntryIsExplained(s, None, AtOnce(ms));
  }

  lemma NothingExpiresAtOnce(s: Setting, ms: seq<Message>)
    requires s.unit > 0
    ensures NoExpiry(s, AtOnce(ms))
  {
    forall i | 0 <= i < |ms| && ms[i].lifetime != 0
      ensures ms[i].lifetime * s.unit > 0
    {
    }
  }

  lemma MovedLast(ms: seq<Message>, m: Message) returns (rest: seq<Message>)
    requires m in ms
    ensures multiset(rest + [m]) == multiset(ms)
    ensures forall x :: x in ms <==> x in rest || x == m
  {
    var i :| 0 <= i < |ms| && ms[i] == m;
    rest := ms[..i] + ms[i + 1..];
    assert ms == ms[..i] + [m] + ms[i + 1..];
  }

  lemma OrderMatters(s: Setting, ms: seq<Message>, top: Message)
    requires s.unit > 0 && Window(ms, top) && top.lifetime == 0
    requires exists m :: m in ms && m.lifetime != 0
    ensures !OrderFree(s, ms)
  {
    var older :| older in ms && older.lifetime != 0;
    var rest := MovedLast(ms, top);
    var others := MovedLast(rest, older);
    var resurrected := others + [top] + [older];
    assert multiset(resurrected) == multiset(ms) by {
      assert multiset(resurrected) == multiset(others + [older]) + multiset{top};
      assert multiset(rest + [top]) == multiset(rest) + multiset{top};
    }
    assert After(s, None, AtOnce(rest + [top])).None? by { WithdrawalLast(s, rest, top); }
    assert After(s, None, AtOnce(resurrected)).Some? by {
      WithdrawalLast(s, others, top);
      LastStep(s, others + [top], older);
    }
  }

  // ---------------------------------------------------------------- a parent switch

  /** A router that switches parent withdraws through the old one and re-advertises through the new one two
      increments on, so that both DAOs and its last advertisement, in any order and any number of copies, leave the
      root with the new parent. */
  lemma ParentSwitchSurvivesReordering(m: Membership, choice: Address, s: Setting, ds: seq<Delivery>,
                                       oldParent: Address, newParent: Address, lifetime: Byte)
    requires m.preferred != ANY && m.preferred in m.parents && choice != m.preferred && !m.temporary
    requires s.start == m.pathSequence && lifetime != 0 && NoExpiry(s, ds)
    requires var readvertised := Message(2, lifetime, newParent);
             && forall d :: d in ds ==>
                  d.message in {Message(0, lifetime, oldParent), Message(1, 0, oldParent), readvertised}
    requires exists d :: d in ds && d.message == Message(2, lifetime, newParent)
    ensures Wire(s.start, 1) == Increment(m.pathSequence)
    ensures Wire(s.start, 2) == AfterSwitch(m, choice, true)
    ensures var e := After(s, None, ds);
            e.Some? && e.value.via == newParent && e.value.sequence == AfterSwitch(m, choice, true)
  {
    var top := Message(2, lifetime, newParent);
    assert Wire(s.start, 2) == Increment(Wire(s.start, 1)) && Wire(s.start, 1) == Increment(Wire(s.start, 0));
    assert Topped(ds, top);
    HighestAdvertisementWins(s, None, 0, ds, top);
  }
}
