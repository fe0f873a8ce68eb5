/** Sequences without repeats, and turned round. */
module Paths {

  predicate RepeatFree<T(==)>(p: seq<T>) {
    forall i, j :: 0 <= i < j < |p| ==> p[i] != p[j]
  }

  lemma Associates<T>(a: seq<T>, b: seq<T>, c: seq<T>)
    ensures a + (b + c) == (a + b) + c
  {
  }

  lemma Pieces<T>(a: seq<T>, b: seq<T>, c: seq<T>)
    ensures var all := a + (b + c);
            all[..|a|] == a && all[|a|..|a| + |b|] == b && all[|a| + |b|..] == c
  {
  }

  function Reversed<T>(p: seq<T>): seq<T> {
    if p == [] then [] else Reversed(p[1..]) + [p[0]]
  }

  lemma {:induction false} ReversedAt<T>(p: seq<T>, k: nat)
    requires k < |p|
    ensures |Reversed(p)| == |p| && Reversed(p)[k] == p[|p| - 1 - k]
  {
    if |p| > 1 {
      ReversedAt(p[1..], if k < |p| - 1 then k else 0);
    }
  }

  lemma ReversedLength<T>(p: seq<T>)
    ensures |Reversed(p)| == |p|
  {
    if p != [] { ReversedAt(p, 0); }
  }

  lemma {:induction false} ReversedAppend<T>(p: seq<T>, x: T)
    ensures Reversed(p + [x]) == [x] + Reversed(p)
  {
    if p == [] {
      assert p + [x] == [x];
      assert [x][1..] == [];
    } else {
      assert (p + [x])[1..] == p[1..] + [x];
      ReversedAppend(p[1..], x);
    }
  }
}
