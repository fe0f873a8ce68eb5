/** The Trickle timer (RFC 6206) that paces DIOs. Times are real; the random point of each interval is a free choice
    in [I/2, I). */
module Trickle {
  import opened Lollipop
  import opened RplTypes

  type Instant = real

  const COUNTER_SIZE := 0x1_0000

  /** The timer: its parameters, the current interval, and when its two events are due. */
  datatype Timer = Timer(
    intervalMin: real, intervalMax: real, redundancy: Byte, interval: real, counter: nat, running: bool,
    transmitAt: Option<Instant>, intervalAt: Option<Instant>)

  function Doubled(x: real, times: nat): real {
    if times == 0 then x else 2.0 * Doubled(x, times - 1)
  }

  function Least(a: real, b: real): real {
    if a < b then a else b
  }

  /** A random draw for an interval of length i. */
  predicate Draw(t: real, i: real) {
    i / 2.0 <= t < i
  }

  function Parametrized(intervalMin: real, doublings: Byte, redundancy: Byte): Timer {
    Timer(intervalMin, Doubled(intervalMin, doublings), redundancy, 1.0, 0, false, None, None)
  }

  function NewInterval(s: Timer, now: Instant, t: real): Timer {
    s.(counter := 0, transmitAt := Some(now + t), intervalAt := Some(now + s.interval))
  }

  function Started(s: Timer, now: Instant, t: real): Timer {
    NewInterval(s.(running := true, interval := s.intervalMin), now, t)
  }

  function Stopped(s: Timer): Timer {
    s.(running := false, transmitAt := None, intervalAt := None)
  }

  /** A reset takes effect only on a running timer above Imin. */
  predicate ResetTakes(s: Timer) {
    s.running && s.interval != s.intervalMin
  }

  function WasReset(s: Timer, now: Instant, t: real): Timer {
    if ResetTakes(s) then NewInterval(s.(interval := s.intervalMin), now, t) else s
  }

  function Hit(s: Timer): Timer {
    s.(counter := (s.counter + 1) % COUNTER_SIZE)
  }

  predicate Transmits(s: Timer) {
    s.redundancy == 0 || s.counter < s.redundancy
  }

  function Expired(s: Timer, now: Instant, t: real): Timer {
    NewInterval(s.(interval := Least(s.interval + s.interval, s.intervalMax)), now, t)
  }

  class RplTrickleTimer {
    var intervalMin: real
    var intervalMax: real
    var redundancy: Byte
    var interval: real
    var counter: nat
    var running: bool
    var transmitAt: Option<Instant>
    var intervalAt: Option<Instant>

    function State(): Timer
      reads this
    {
      Timer(intervalMin, intervalMax, redundancy, interval, counter, running, transmitAt, intervalAt)
    }

    constructor ()
      ensures State() == Timer(1.0, 1.0, 0, 1.0, 0, false, None, None)
    {
      intervalMin, intervalMax, interval := 1.0, 1.0, 1.0;
      redundancy, counter, running := 0, 0, false;
      transmitAt, intervalAt := None, None;
    }

    method SetParameters(intervalMin: real, doublings: Byte, redundancy: Byte)
      modifies this
      ensures State() == old(State()).(intervalMin := intervalMin, intervalMax := Doubled(intervalMin, doublings),
                                       redundancy := redundancy)
    {
      this.intervalMin := intervalMin;
      var factor := 1.0;
      for k := 0 to doublings
        invariant intervalMin * factor == Doubled(intervalMin, k)
        invariant State() == old(State()).(intervalMin := intervalMin)
      {
        factor := 2.0 * factor;
      }
      intervalMax := intervalMin * factor;
      this.redundancy := redundancy;
    }

    method ScheduleInterval(now: Instant, t: real)
      requires Draw(t, interval)
      modifies this
      ensures State() == NewInterval(old(State()), now, t)
    {
      counter := 0;
      transmitAt := Some(now + t);
      intervalAt := Some(now + interval);
    }

    method Start(now: Instant, t: real)
      requires Draw(t, intervalMin)
      modifies this
      ensures State() == Started(old(State()), now, t)
    {
      running := true;
      interval := intervalMin;
      ScheduleInterval(now, t);
    }

    method Stop()
      modifies this
      ensures State() == Stopped(old(State()))
    {
      running := false;
      transmitAt, intervalAt := None, None;
    }

    method Reset(now: Instant, t: real)
      requires Draw(t, intervalMin)
      modifies this
      ensures State() == WasReset(old(State()), now, t)
    {
      if !running || interval == intervalMin {
        return;
      }
      interval := intervalMin;
      ScheduleInterval(now, t);
    }

    method ConsistencyHit()
      modifies this
      ensures State() == Hit(old(State()))
    {
      counter := (counter + 1) % COUNTER_SIZE;
    }

    method TransmitEvent() returns (transmitted: bool)
      modifies this
      ensures transmitted == Transmits(old(State())) && State() == old(State()).(transmitAt := None)
    {
      transmitAt := None;
      transmitted := redundancy == 0 || counter < redundancy;
    }

    method IntervalEvent(now: Instant, t: real)
      requires Draw(t, Least(interval + interval, intervalMax))
      modifies this
      ensures State() == Expired(old(State()), now, t)
    {
      interval := if interval + interval < intervalMax then interval + interval else intervalMax;
      ScheduleInterval(now, t);
    }
  }

  // ---------------------------------------------------------------- timed runs

  datatype Event = Start(t: real) | Stop | Reset(t: real) | Heard | TransmitDue | IntervalDue(t: real)

  /** The timer at an instant, with what is counted about its past: the expirations since the last start or reset
      asked for, the consistent messages heard in this interval, and the transmissions made. */
  datatype World = World(timer: Timer, now: Instant, expirations: nat, hits: nat, sent: seq<Instant>)

  /** An event can happen at `at`: time does not run back or past a due event, and a draw is one of those allowed. */
  predicate Enabled(w: World, at: Instant, e: Event) {
    var s := w.timer;
    && w.now <= at && (s.transmitAt.Some? ==> at <= s.transmitAt.value)
    && (s.intervalAt.Some? ==> at <= s.intervalAt.value)
    && match e
       case Start(t) => Draw(t, s.intervalMin)
       case Stop => true
       case Reset(t) => Draw(t, s.intervalMin)
       case Heard => true
       case TransmitDue => s.transmitAt == Some(at)
       case IntervalDue(t) => s.intervalAt == Some(at) && Draw(t, Least(s.interval + s.interval, s.intervalMax))
  }

  function Step(w: World, at: Instant, e: Event): World {
    var s := w.timer;
    match e
    case Start(t) => w.(timer := Started(s, at, t), now := at, expirations := 0, hits := 0)
    case Stop => w.(timer := Stopped(s), now := at)
    case Reset(t) =>
      w.(timer := WasReset(s, at, t), now := at, expirations := 0,
         hits := if s.running && s.intervalMin < s.interval then 0 else w.hits)
    case Heard => w.(timer := Hit(s), now := at, hits := w.hits + 1)
    case TransmitDue =>
      w.(timer := s.(transmitAt := None), now := at, sent := if Transmits(s) then w.sent + [at] else w.sent)
    case IntervalDue(t) => w.(timer := Expired(s, at, t), now := at, expirations := w.expirations + 1, hits := 0)
  }

  predicate Possible(w: World, run: seq<(Instant, Event)>)
    decreases |run|
  {
    run == [] || (Enabled(w, run[0].0, run[0].1) && Possible(Step(w, run[0].0, run[0].1), run[1..]))
  }

  function After(w: World, run: seq<(Instant, Event)>): World
    decreases |run|
  {
    if run == [] then w else After(Step(w, run[0].0, run[0].1), run[1..])
  }

  function Fresh(imin: real, doublings: Byte, k: Byte, now: Instant): World {
    World(Parametrized(imin, doublings, k), now, 0, 0, [])
  }

  lemma {:induction false} DoubledGrows(x: real, times: nat)
    requires x > 0.0
    ensures Doubled(x, times) >= x
  {
    if times > 0 {
      DoubledGrows(x, times - 1);
    }
  }

  predicate Spaced(sent: seq<Instant>, gap: real) {
    forall i :: 0 < i < |sent| ==> sent[i] - sent[i - 1] >= gap
  }

  function LastSent(sent: seq<Instant>): Instant
    requires sent != []
  {
    sent[|sent| - 1]
  }

  /** What every reachable world keeps. */
  ghost predicate Steady(w: World, imin: real, imax: real, k: Byte) {
    var s := w.timer;
    && s.intervalMin == imin && s.intervalMax == imax && s.redundancy == k && s.counter == w.hits % COUNTER_SIZE
    && (s.running ==> s.interval == Least(Doubled(imin, w.expirations), imax) && s.intervalAt.Some?)
    && (!s.running ==> s.transmitAt.None? && s.intervalAt.None?)
    && Spaced(w.sent, imin / 2.0)
    && (w.sent != [] ==> LastSent(w.sent) <= w.now)
    && (w.sent != [] && s.transmitAt.Some? ==> LastSent(w.sent) + imin / 2.0 <= s.transmitAt.value)
  }

  lemma ExpiryDoubles(imin: real, imax: real, n: nat)
    requires imin > 0.0
    ensures var i := Least(Doubled(imin, n), imax);
            imax >= imin ==> i >= imin && Least(i + i, imax) == Least(Doubled(imin, n + 1), imax)
  {
    DoubledGrows(imin, n);
  }

  lemma StepIsSteady(w: World, at: Instant, e: Event, imin: real, imax: real, k: Byte)
    requires Steady(w, imin, imax, k) && Enabled(w, at, e) && 0.0 < imin <= imax
    ensures Steady(Step(w, at, e), imin, imax, k)
  {
    ExpiryDoubles(imin, imax, w.expirations);
  }

  lemma {:induction false} RunIsSteady(w: World, run: seq<(Instant, Event)>, imin: real, imax: real, k: Byte)
    requires Steady(w, imin, imax, k) && Possible(w, run) && 0.0 < imin <= imax
    ensures Steady(After(w, run), imin, imax, k)
    decreases |run|
  {
    if run != [] {
      StepIsSteady(w, run[0].0, run[0].1, imin, imax, k);
      RunIsSteady(Step(w, run[0].0, run[0].1), run[1..], imin, imax, k);
    }
  }

  /** j expirations after the last start or reset asked for, the interval is min(Imin * 2^j, Imax), whatever else
      happened: a reset brings any longer interval back to Imin. */
  lemma IntervalLaw(imin: real, doublings: Byte, k: Byte, begin: Instant, run: seq<(Instant, Event)>)
    requires 0.0 < imin && Possible(Fresh(imin, doublings, k, begin), run)
    ensures var w := After(Fresh(imin, doublings, k, begin), run);
            w.timer.running ==> w.timer.interval == Least(Doubled(imin, w.expirations), Doubled(imin, doublings))
  {
    DoubledGrows(imin, doublings);
    RunIsSteady(Fresh(imin, doublings, k, begin), run, imin, Doubled(imin, doublings), k);
  }

  lemma {:induction false} SpacedApart(sent: seq<Instant>, gap: real, i: nat, j: nat)
    requires Spaced(sent, gap) && gap >= 0.0 && i < j < |sent|
    ensures sent[j] - sent[i] >= gap
  {
    if i + 1 < j {
      SpacedApart(sent, gap, i, j - 1);
    }
  }

  /** Any two transmissions are at least Imin/2 apart, whatever starts, stops and resets arrive. */
  lemma NeverFasterThanHalfImin(imin: real, doublings: Byte, k: Byte, begin: Instant,
                                 run: seq<(Instant, Event)>, i: nat, j: nat)
    requires 0.0 < imin && Possible(Fresh(imin, doublings, k, begin), run)
    requires i < j < |After(Fresh(imin, doublings, k, begin), run).sent|
    ensures var sent := After(Fresh(imin, doublings, k, begin), run).sent;
            sent[j] - sent[i] >= imin / 2.0
  {
    DoubledGrows(imin, doublings);
    RunIsSteady(Fresh(imin, doublings, k, begin), run, imin, Doubled(imin, doublings), k);
    SpacedApart(After(Fresh(imin, doublings, k, begin), run).sent, imin / 2.0, i, j);
  }

  /** An interval's point is used exactly when there is no redundancy constant or fewer than k consistent messages were
      heard before it, counted in 16 bits. */
  lemma TransmitsExactly(imin: real, doublings: Byte, k: Byte, begin: Instant, run: seq<(Instant, Event)>, at: Instant)
    requires 0.0 < imin && Possible(Fresh(imin, doublings, k, begin), run)
    requires Enabled(After(Fresh(imin, doublings, k, begin), run), at, TransmitDue)
    ensures var w := After(Fresh(imin, doublings, k, begin), run);
            Step(w, at, TransmitDue).sent == if k == 0 || w.hits % COUNTER_SIZE < k then w.sent + [at] else w.sent
  {
    DoubledGrows(imin, doublings);
    RunIsSteady(Fresh(imin, doublings, k, begin), run, imin, Doubled(imin, doublings), k);
  }

  // ---------------------------------------------------------------- no long silence

  /** How long after the last transmission the next may come: a reset is honoured once, so Imin once. */
  function Patience(s: Timer): real {
    1.5 * s.intervalMax + (if s.interval == s.intervalMin then s.intervalMin else 0.0)
  }

  /** Kept while a timer started at `begin` runs on with suppression off. */
  ghost predicate Lively(w: World, imin: real, imax: real, begin: Instant) {
    var s := w.timer;
    && s.running && s.redundancy == 0 && s.intervalMin == imin && s.intervalMax == imax && imin <= s.interval <= imax
    && s.intervalAt.Some? && w.now <= s.intervalAt.value && (s.transmitAt.Some? ==> w.now <= s.transmitAt.value)
    && (s.transmitAt.Some? ==> s.intervalAt.value - s.interval / 2.0 <= s.transmitAt.value < s.intervalAt.value)
    && (forall i :: 0 < i < |w.sent| ==> w.sent[i] - w.sent[i - 1] < 1.5 * imax + imin)
    && (w.sent == [] ==> s.transmitAt.Some? && s.transmitAt.value < begin + imin && s.interval == imin)
    && (w.sent != [] && s.transmitAt.None? ==> s.intervalAt.value <= LastSent(w.sent) + s.interval / 2.0)
    && (w.sent != [] && s.transmitAt.Some? ==> s.transmitAt.value < LastSent(w.sent) + Patience(s))
  }

  predicate Undisturbed(run: seq<(Instant, Event)>) {
    forall i :: 0 <= i < |run| ==> !run[i].1.Start? && !run[i].1.Stop?
  }

  lemma StepIsLively(w: World, at: Instant, e: Event, imin: real, imax: real, begin: Instant)
    requires Lively(w, imin, imax, begin) && Enabled(w, at, e) && 0.0 < imin <= imax && !e.Start? && !e.Stop?
    ensures Lively(Step(w, at, e), imin, imax, begin)
  {
  }

  lemma {:induction false} RunIsLively(w: World, run: seq<(Instant, Event)>, imin: real, imax: real, begin: Instant)
    requires Lively(w, imin, imax, begin) && Possible(w, run) && Undisturbed(run) && 0.0 < imin <= imax
    ensures Lively(After(w, run), imin, imax, begin)
    decreases |run|
  {
    if run != [] {
      assert Undisturbed(run[1..]) by {
        assert forall i :: 0 <= i < |run[1..]| ==> run[1..][i] == run[i + 1];
      }
      StepIsLively(w, run[0].0, run[0].1, imin, imax, begin);
      RunIsLively(Step(w, run[0].0, run[0].1), run[1..], imin, imax, begin);
    }
  }

  /** With k = 0 and no Stop, the first transmission comes within Imin and each later one within 3/2 Imax + Imin of the
      one before, however many resets arrive. */
  lemma NoLongSilence(imin: real, doublings: Byte, begin: Instant, t: real, run: seq<(Instant, Event)>)
    requires 0.0 < imin && Draw(t, imin) && Undisturbed(run)
    requires Possible(Step(Fresh(imin, doublings, 0, begin), begin, Start(t)), run)
    ensures var w := After(Step(Fresh(imin, doublings, 0, begin), begin, Start(t)), run);
            var bound := 1.5 * Doubled(imin, doublings) + imin;
            && (w.sent == [] ==> w.now < begin + imin)
            && (w.sent != [] ==> w.now < LastSent(w.sent) + bound)
            && forall i :: 0 < i < |w.sent| ==> w.sent[i] - w.sent[i - 1] < bound
  {
    DoubledGrows(imin, doublings);
    RunIsLively(Step(Fresh(imin, doublings, 0, begin), begin, Start(t)), run, imin, Doubled(imin, doublings), begin);
  }
}
