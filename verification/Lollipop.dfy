/** Lollipop sequence counters (section 7.2 of RFC 6550): the comparison, the increment, and how both relate to
    an unbounded count of increments. */
module Lollipop {

  type Byte = x: int | 0 <= x < 256

  const SEQUENCE_WINDOW := 16
  const LINEAR_REGION := 128
  const CIRCULAR_SIZE := 128

  datatype Order = Less | Equal | Greater | NotComparable

  function Compare(a: Byte, b: Byte): Order {
    if a == b then Equal
    else if (a >= LINEAR_REGION) != (b >= LINEAR_REGION) then
      var linear := if a >= LINEAR_REGION then a else b;
      var circular := if a >= LINEAR_REGION then b else a;
      if 256 + circular - linear <= SEQUENCE_WINDOW
      then (if a >= LINEAR_REGION then Less else Greater)
      else (if a >= LINEAR_REGION then Greater else Less)
    else if a >= LINEAR_REGION then
      var magnitude := if a > b then a - b else b - a;
      if magnitude > SEQUENCE_WINDOW then NotComparable
      else if a > b then Greater else Less
    else
      var forward := (a - b) % 256 % CIRCULAR_SIZE;
      if forward <= SEQUENCE_WINDOW then Greater
      else if CIRCULAR_SIZE - forward <= SEQUENCE_WINDOW then Less
      else NotComparable
  }

  predicate Newer(candidate: Byte, held: Byte) {
    Compare(candidate, held) == Greater
  }

  function Increment(value: Byte): Byte {
    if value == LINEAR_REGION - 1 then 0 else (value + 1) % 256
  }

  /** The wire value of a counter that started at `start` and has been incremented `count` times. */
  function Wire(start: Byte, count: nat): Byte {
    if count == 0 then start else Increment(Wire(start, count - 1))
  }

  lemma NextRemainder(x: nat)
    ensures (x + 1) % CIRCULAR_SIZE == if x % CIRCULAR_SIZE == CIRCULAR_SIZE - 1 then 0 else x % CIRCULAR_SIZE + 1
  {
  }

  lemma {:induction false} WireClosedForm(start: Byte, count: nat)
    ensures Wire(start, count) ==
            if start < LINEAR_REGION then (start + count) % CIRCULAR_SIZE
            else if start + count < 256 then start + count
            else (start + count - 256) % CIRCULAR_SIZE
  {
    if count > 0 {
      WireClosedForm(start, count - 1);
      if start < LINEAR_REGION {
        NextRemainder(start + count - 1);
      } else if start + count > 256 {
        NextRemainder(start + count - 1 - 256);
      }
    }
  }

  function OrderOf(m: nat, n: nat): Order {
    if m < n then Less else if m == n then Equal else Greater
  }

  lemma {:induction false} WireAdds(start: Byte, count: nat, gap: nat)
    ensures Wire(Wire(start, count), gap) == Wire(start, count + gap)
  {
    if gap > 0 {
      WireAdds(start, count, gap - 1);
    }
  }

  lemma StepsForward(a: Byte, b: Byte)
    requires a < CIRCULAR_SIZE && b < CIRCULAR_SIZE
    ensures (a - b) % 256 % CIRCULAR_SIZE == if a >= b then a - b else a - b + CIRCULAR_SIZE
  {
    assert a >= b ==> (a - b) % 256 == a - b;
    assert a < b ==> (a - b) % 256 == a - b + 256;
  }

  lemma WrapsAround(a: nat, gap: nat)
    requires a < CIRCULAR_SIZE
    ensures var g := gap % CIRCULAR_SIZE;
            (a + gap) % CIRCULAR_SIZE == if a + g < CIRCULAR_SIZE then a + g else a + g - CIRCULAR_SIZE
  {
  }

  lemma CircularAhead(a: Byte, b: Byte, gap: nat)
    requires a < CIRCULAR_SIZE && b < CIRCULAR_SIZE && 0 < gap <= SEQUENCE_WINDOW
    requires b == if a + gap < CIRCULAR_SIZE then a + gap else a + gap - CIRCULAR_SIZE
    ensures Compare(a, b) == Less && Compare(b, a) == Greater
  {
    StepsForward(a, b);
    StepsForward(b, a);
  }

  lemma LinearAhead(a: Byte, b: Byte, gap: nat)
    requires a >= LINEAR_REGION && 0 < gap <= SEQUENCE_WINDOW
    requires b == if a + gap < 256 then a + gap else a + gap - 256
    ensures Compare(a, b) == Less && Compare(b, a) == Greater
  {
  }

  lemma FewSteps(a: Byte, gap: nat)
    requires gap <= SEQUENCE_WINDOW
    ensures Wire(a, gap) ==
            if a < LINEAR_REGION then (if a + gap < CIRCULAR_SIZE then a + gap else a + gap - CIRCULAR_SIZE)
                            else if a + gap < 256 then a + gap else a + gap - 256
  {
    WireClosedForm(a, gap);
    if a < LINEAR_REGION { WrapsAround(a, gap); }
  }

  lemma {:induction false} NextFewAreNewer(a: Byte, gap: nat)
    requires 0 < gap <= SEQUENCE_WINDOW
    ensures Compare(a, Wire(a, gap)) == Less && Compare(Wire(a, gap), a) == Greater
  {
    FewSteps(a, gap);
    if a < LINEAR_REGION {
      CircularAhead(a, Wire(a, gap), gap);
    } else {
      LinearAhead(a, Wire(a, gap), gap);
    }
  }

  /** Within a window of 16 increments the comparison is the order of the unbounded counts, whatever value the
      counter started from and through both wraps (255 to 0 and 127 to 0). */
  lemma {:induction false} WindowIsExact(start: Byte, m: nat, n: nat)
    requires m <= n + SEQUENCE_WINDOW && n <= m + SEQUENCE_WINDOW
    ensures Compare(Wire(start, m), Wire(start, n)) == OrderOf(m, n)
  {
    if m < n {
      WireAdds(start, m, n - m);
      NextFewAreNewer(Wire(start, m), n - m);
    } else if n < m {
      WireAdds(start, n, m - n);
      NextFewAreNewer(Wire(start, n), m - n);
    }
  }

  /** In the circular region the window is exactly that wide: a counter `gap` increments ahead is seen as newer
      if and only if the gap, around the circle, is 1 to 16. */
  lemma CircularWindowIsTight(start: Byte, count: nat, gap: nat)
    requires start < LINEAR_REGION
    ensures Newer(Wire(start, count + gap), Wire(start, count)) <==> 1 <= gap % CIRCULAR_SIZE <= SEQUENCE_WINDOW
  {
    var a, g := Wire(start, count), gap % CIRCULAR_SIZE;
    assert a < CIRCULAR_SIZE by { WireClosedForm(start, count); }
    var b := Wire(a, gap);
    assert b == if a + g < CIRCULAR_SIZE then a + g else a + g - CIRCULAR_SIZE by {
      WireClosedForm(a, gap);
      WrapsAround(a, gap);
    }
    WireAdds(start, count, gap);
    StepsForward(b, a);
  }

  /** The comparison is antisymmetric on every pair of bytes. */
  lemma CompareFlips(a: Byte, b: Byte)
    ensures Compare(a, b) == Less <==> Compare(b, a) == Greater
    ensures Compare(a, b) == Equal <==> a == b
    ensures Compare(a, b) == NotComparable <==> Compare(b, a) == NotComparable
  {
    if a < LINEAR_REGION && b < LINEAR_REGION {
      StepsForward(a, b);
      StepsForward(b, a);
    }
  }
}
