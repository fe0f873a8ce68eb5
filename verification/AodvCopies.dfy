/** What one copy of an RREQ-DIO makes of a router, said of the copy itself: whether it is joined on, what is recorded
    of it, and the reply it earns. */
module AodvCopies {
  import opened Lollipop
  import opened RplTypes
  import opened AodvRreq
  import opened AodvLifeCycle

  /** Hops allowed: a router named as a target may be the last of them, any other has to leave one more. */
  predicate WithinRankLimit(n: Node, d: Rreq)
    requires Comparable(d)
  {
    d.rankLimit == 0 || d.rank / d.minHop + (if n.own in d.targets then 1 else 2) <= d.rankLimit
  }

  /** The copies a router takes notice of. */
  predicate Heeded(n: Node, r: Router, at: Time, e: Event)
    requires e.Dio? && Comparable(e.d)
  {
    && e.d.targets != [] && n.own != n.origin
    && (r.barredUntil.Some? ==> at >= r.barredUntil.value)
    && (e.d.hopByHop && e.storedSeqNo.Some? ==> Compare(e.storedSeqNo.value, e.d.origSeqNo) != Greater)
    && (!e.d.hopByHop ==> n.own !in e.d.vector)
    && WithinRankLimit(n, e.d)
  }

  lemma HeededIs(n: Node, r: Router, at: Time, e: Event)
    requires e.Dio? && Comparable(e.d)
    ensures Heeded(n, r, at, e) <==> !Refuses(n, r, e.d, at, e.storedSeqNo)
  {
    if e.d.rankLimit != 0 {
      assert PastRankLimit(n, e.d) <==> !WithinRankLimit(n, e.d);
    }
  }

  /** How long L is, in seconds; 0 is no limit. */
  function Seconds(lifetime: Byte): nat {
    if lifetime % 4 == 0 then 0 else if lifetime % 4 == 1 then 16 else if lifetime % 4 == 2 then 64 else 256
  }

  function Deadline(before: Option<Time>, lifetime: Byte, at: Time): Option<Time> {
    if before.Some? || Seconds(lifetime) == 0 then before else Some(at + Seconds(lifetime))
  }

  /** The membership recorded from a copy: what the copy says, with `left` for the targets. */
  predicate RecordedFrom(n: Node, m: Member, d: Rreq, at: Time, expiry: Option<Time>) {
    && m.seeded && m.hopByHop == d.hopByHop && m.lifetime == d.lifetime && m.rankLimit == d.rankLimit
    && m.origSeqNo == d.origSeqNo && d.targets != [] && m.target == d.targets[0]
    && (m.symmetric <==> d.symmetric && !n.forceAsymmetric)
    && m.expiry == Deadline(expiry, d.lifetime, at)
  }

  /** A reply goes out to a copy that names this router, with H=1 only if the way back could be stored. */
  predicate Earns(n: Node, e: Event)
    requires e.Dio?
  {
    n.own in e.d.targets && (e.d.hopByHop ==> e.upward)
  }

  /** From outside a router joins exactly on a copy it heeds, of finite rank, whose sender makes a parent, and with H=0
      room in the vector. It then has recorded the copy, less its own address among the targets and with it at the end
      of the vector, and has answered if named. */
  lemma FirstCopyExactly(n: Node, w: World, at: Time, e: Event)
    requires e.Dio? && Enabled(w, at, e) && w.router.member.None?
    ensures var r' := Step(n, w, at, e).router;
            && (r'.member.Some? <==>
                  && Heeded(n, w.router, at, e) && e.d.rank != 0xFFFF && e.selection.Prefers?
                  && (e.d.hopByHop || |e.d.vector| < 15))
            && (r'.member.Some? ==>
                  var m' := r'.member.value;
                  && RecordedFrom(n, m', e.d, at, None) && m'.preferred == e.selection.parent && r'.barredUntil == None
                  && (forall t :: t in m'.targets <==> t in e.d.targets && t != n.own)
                  && (m'.isTarget <==> n.own in e.d.targets)
                  && m'.vector == (if e.d.hopByHop then [] else e.d.vector + [n.own])
                  && m'.replies == if Earns(n, e) then 1 else 0)
  {
    HeededIs(n, w.router, at, e);
    if e.d.targets != [] && e.selection.Prefers? {
      RecordedIs(n, FRESH_MEMBER.(preferred := e.selection.parent), e.d, at);
    }
    hide Refuses, Heeded, Without, Intersected;
  }

  /** A member takes a copy from anyone until it has processed one of that H, and then from its parent alone; a TargNode
      with nothing left to relay takes none. */
  predicate Takes(m: Member, e: Event)
    requires e.Dio? && e.selection.Prefers?
  {
    && (m.isTarget ==> m.targets != [])
    && ((if e.d.hopByHop then m.seeded else m.vector != []) ==> e.from == e.selection.parent)
  }

  /** What a further copy makes of a member that has a parent still: a record of what it says, the targets cut down to
      those it names too, the vector renewed; a full vector ends the membership. */
  lemma LaterCopyExactly(n: Node, w: World, at: Time, e: Event)
    requires e.Dio? && Enabled(w, at, e) && w.router.member.Some? && Sound(n, w.router) && !MeetsForeignRecord(w, e)
    requires Heeded(n, w.router, at, e) && e.d.rank != 0xFFFF && e.selection.Prefers?
    ensures var m, r' := w.router.member.value, Step(n, w, at, e).router;
            if !Takes(m, e) then r'.member == Some(m.(preferred := e.selection.parent))
            else if !e.d.hopByHop && |e.d.vector| >= 15 then r'.member.None?
            else
              && r'.member.Some?
              && var m' := r'.member.value;
                 && RecordedFrom(n, m', e.d, at, m.expiry) && m'.preferred == e.selection.parent
                 && (forall t :: t in m'.targets <==> t in m.targets && t in e.d.targets)
                 && m'.isTarget == m.isTarget && m'.replies == m.replies
                 && m'.vector == if e.d.hopByHop then m.vector else e.d.vector + [n.own]
  {
    HeededIs(n, w.router, at, e);
    RecordedIs(n, w.router.member.value.(preferred := e.selection.parent), e.d, at);
    hide Refuses, Heeded, Without, Intersected;
  }

  /** Every other copy: one not heeded, or poison from outside, changes nothing; one that leaves no parent is the end of
      the stay; poison that leaves one only sets it. A stay ends with a bar if a target was on record, also when it ends
      as it begins, the vector being full. */
  lemma OtherCopyExactly(n: Node, w: World, at: Time, e: Event)
    requires e.Dio? && Enabled(w, at, e) && Sound(n, w.router)
    ensures var r, r' := w.router, Step(n, w, at, e).router;
            if !Heeded(n, r, at, e) || (e.d.rank == 0xFFFF && r.member.None?) then r' == r
            else if e.selection.Loses? then
              r' == Router(None, if r.member.Some? && r.member.value.target != ANY then Some(at + n.rejoinReenable)
                                 else r.barredUntil)
            else if e.d.rank == 0xFFFF then
              r' == Router(Some(r.member.value.(preferred := e.selection.parent)), None)
            else
              r'.member.None? ==>
                r'.barredUntil == if e.d.targets[0] != ANY then Some(at + n.rejoinReenable) else None
  {
    HeededIs(n, w.router, at, e);
    hide Refuses, Heeded, Without, Intersected;
  }

  /** A router relays the RREQ it joined on exactly if that names a target other than itself, and its first is not `::`;
      a further copy leaves it something to relay exactly if one of the targets it still had is named again. */
  lemma RelaysExactly(n: Node, w: World, at: Time, e: Event)
    requires e.Dio? && Enabled(w, at, e) && Sound(n, w.router) && !MeetsForeignRecord(w, e)
    requires Heeded(n, w.router, at, e) && e.d.rank != 0xFFFF && e.selection.Prefers?
    requires w.router.member.Some? ==> Takes(w.router.member.value, e)
    ensures var r, r' := w.router, Step(n, w, at, e).router;
            r'.member.Some? ==>
              (SendsRreq(r'.member.value)
               <==> e.d.targets[0] != ANY
                    && exists t :: t in e.d.targets && t != n.own && (r.member.Some? ==> t in r.member.value.targets))
  {
    hide Heeded, RecordedFrom, Step;
    var r' := Step(n, w, at, e).router;
    if w.router.member.None? {
      FirstCopyExactly(n, w, at, e);
    } else {
      LaterCopyExactly(n, w, at, e);
    }
    if r'.member.Some? {
      var expiry := if w.router.member.Some? then w.router.member.value.expiry else None;
      FirstOf(n, r'.member.value, e.d, at, expiry);
      var left := r'.member.value.targets;
      assert left != [] ==> left[0] in left;
    }
  }

  lemma FirstOf(n: Node, m: Member, d: Rreq, at: Time, expiry: Option<Time>)
    requires RecordedFrom(n, m, d, at, expiry)
    ensures d.targets != [] && m.target == d.targets[0]
  {
  }

  /** No event of a stay but a copy meeting a foreign record makes or unmakes a reply. */
  lemma RepliesStay(n: Node, w: World, at: Time, e: Event)
    requires Sound(n, w.router) && Enabled(w, at, e) && !MeetsForeignRecord(w, e)
    requires w.router.member.Some? && Step(n, w, at, e).router.member.Some?
    ensures Step(n, w, at, e).router.member.value.replies == w.router.member.value.replies
  {
    if e.Dio? {
      HeededIs(n, w.router, at, e);
      if Heeded(n, w.router, at, e) && e.d.rank != 0xFFFF && e.selection.Prefers? {
        LaterCopyExactly(n, w, at, e);
      }
    }
  }

  lemma {:induction false} RepliesStayOverRuns(n: Node, w: World, run: Run)
    requires Sound(n, w.router) && Possible(n, w, run) && Stays(n, w, run) && KeepsToH(n, w, run)
    ensures After(n, w, run).router.member.Some?
    ensures After(n, w, run).router.member.value.replies == w.router.member.value.replies
    decreases |run|
  {
    if run != [] {
      hide Step;
      StepIsSound(n, w, run[0].0, run[0].1);
      RepliesStay(n, w, run[0].0, run[0].1);
      RepliesStayOverRuns(n, Step(n, w, run[0].0, run[0].1), run[1..]);
    }
  }

  /** Through the whole of a stay a router has answered exactly once if the copy it joined on named it, and with H=1
      could be answered, and not at all otherwise. */
  lemma AnswersExactlyOnce(n: Node, w: World, at: Time, e: Event, run: Run)
    requires e.Dio? && Enabled(w, at, e) && w.router.member.None? && Step(n, w, at, e).router.member.Some?
    requires var w' := Step(n, w, at, e); Possible(n, w', run) && Stays(n, w', run) && KeepsToH(n, w', run)
    ensures var last := After(n, Step(n, w, at, e), run).router;
            last.member.Some? && last.member.value.replies == if Earns(n, e) then 1 else 0
  {
    FirstCopyExactly(n, w, at, e);
    StepIsSound(n, w, at, e);
    RepliesStayOverRuns(n, Step(n, w, at, e), run);
  }
}
