/** The option lists that end RPL control messages: how they are framed, and the cursor they are read with. */
module OptionWalk {
  import opened Lollipop
  import opened Octets
  import opened Paths
  import opened RplTypes

  const PAD1: Byte := 0

  /** An option other than Pad1. */
  datatype Tlv = Tlv(kind: Byte, body: Bytes)

  predicate Writable(t: Tlv) {
    t.kind != PAD1 && |t.body| < 256
  }

  function OnWire(t: Tlv): Bytes
    requires Writable(t)
  {
    [t.kind, |t.body|] + t.body
  }

  function AllOnWire(ts: seq<Tlv>): Bytes
    requires forall t :: t in ts ==> Writable(t)
  {
    if ts == [] then [] else OnWire(ts[0]) + AllOnWire(ts[1..])
  }

  function Declared(b: Bytes): nat
    requires |b| >= 2
  {
    b[1]
  }

  /** The octets one turn of an option loop consumes, or None where it stops: at the end, or at an option that
      claims more than there is. */
  function Turn(b: Bytes): (n: Option<nat>)
    ensures n.Some? ==> 0 < n.value <= |b|
  {
    if b == [] then None
    else if b[0] == PAD1 then Some(1)
    else if |b| < 2 || |b| - 2 < Declared(b) then None
    else Some(2 + Declared(b))
  }

  /** The options a loop sees, in order. */
  function Split(b: Bytes): seq<Tlv>
    decreases |b|
  {
    if Turn(b).None? then [] else Seen(b, Turn(b).value) + Split(b[Turn(b).value..])
  }

  /** What a turn of n octets sees. */
  function Seen(b: Bytes, n: nat): seq<Tlv>
    requires 0 < n <= |b|
  {
    if b[0] == PAD1 || n == 1 then [] else [Tlv(b[0], b[2..n])]
  }

  /** A turn depends on nothing beyond the octets it consumes. */
  lemma TurnIsLocal(b: Bytes, n: nat, c: Bytes)
    requires Turn(b) == Some(n) && n <= |c| && c[..n] == b[..n]
    ensures Turn(c) == Some(n) && Seen(c, n) == Seen(b, n)
  {
    assert forall i :: 0 <= i < n ==> c[i] == c[..n][i] && b[i] == b[..n][i];
  }

  /** Octet `p` of `b` is where a turn of the loop begins. */
  predicate Boundary(b: Bytes, p: nat)
    decreases |b|
  {
    p == 0 || (Turn(b).Some? && p >= Turn(b).value && Boundary(b[Turn(b).value..], p - Turn(b).value))
  }

  lemma {:induction false} BoundaryIsInside(b: Bytes, p: nat)
    requires Boundary(b, p)
    ensures p <= |b|
    decreases |b|
  {
    if p > 0 {
      BoundaryIsInside(b[Turn(b).value..], p - Turn(b).value);
    }
  }

  lemma SplitTurn(b: Bytes, n: nat, c: Bytes, tail: Bytes)
    requires Turn(b) == Some(n) && n <= |c| && c[..n] == b[..n] && c[n..] == tail
    ensures Split(c) == Seen(b, n) + Split(tail)
  {
    TurnIsLocal(b, n, c);
  }

  /** If two buffers begin with the same turn, what they split into differs only in the rest. */
  lemma SplitPrefixed(b: Bytes, n: nat, front: Bytes, rest: Bytes)
    requires Turn(b) == Some(n) && Split(front + rest) == Split(front) + Split(rest)
    ensures Split(b[..n] + front + rest) == Split(b[..n] + front) + Split(rest)
  {
    hide Split, Seen, Turn;
    SplitTurn(b, n, b[..n] + front, front);
    Associates(b[..n], front, rest);
    SplitTurn(b, n, b[..n] + (front + rest), front + rest);
    Associates(Seen(b, n), Split(front), Split(rest));
  }

  lemma NothingToSplit()
    ensures Split([]) == []
  {
  }

  /** What lies before a boundary is read the same whatever follows. */
  lemma {:induction false} SplitAtBoundary(b: Bytes, p: nat, rest: Bytes)
    requires Boundary(b, p) && p <= |b|
    ensures Split(b[..p] + rest) == Split(b[..p]) + Split(rest)
    decreases |b|
  {
    hide Split, Seen;
    if p == 0 {
      NothingToSplit();
      assert b[..p] == [] && [] + rest == rest;
    } else {
      var n := Turn(b).value;
      assert n <= p && Boundary(b[n..], p - n);
      hide Boundary, Turn;
      var front := b[n..][..p - n];
      SplitAtBoundary(b[n..], p - n, rest);
      assert b[..n] + front == b[..p];
      SplitPrefixed(b, n, front, rest);
    }
  }

  lemma SplitOne(t: Tlv, rest: Bytes)
    requires Writable(t)
    ensures Split(OnWire(t) + rest) == [t] + Split(rest)
  {
    var b := OnWire(t) + rest;
    assert Turn(b) == Some(2 + |t.body|);
    assert b[2..2 + |t.body|] == t.body && b[2 + |t.body|..] == rest;
  }

  lemma {:induction false} SplitUndoesWriting(ts: seq<Tlv>)
    requires forall t :: t in ts ==> Writable(t)
    ensures Split(AllOnWire(ts)) == ts
  {
    if ts != [] {
      SplitOne(ts[0], AllOnWire(ts[1..]));
      SplitUndoesWriting(ts[1..]);
    }
  }

  lemma CutAtBoundary(b: Bytes, p: nat)
    requires Boundary(b, p) && p <= |b|
    ensures Split(b) == Split(b[..p]) + Split(b[p..])
  {
    hide Split, Boundary;
    SplitAtBoundary(b, p, b[p..]);
    assert b[..p] + b[p..] == b;
  }

  /** An option inserted at a boundary appears at its place among the others, which are unaffected. */
  lemma {:induction false} InsertAtBoundary(b: Bytes, p: nat, t: Tlv)
    requires Boundary(b, p) && p <= |b| && Writable(t)
    ensures Split(b) == Split(b[..p]) + Split(b[p..])
    ensures Split(b[..p] + OnWire(t) + b[p..]) == Split(b[..p]) + [t] + Split(b[p..])
  {
    hide Split, Boundary, OnWire;
    CutAtBoundary(b, p);
    var more := OnWire(t) + b[p..];
    SplitOne(t, b[p..]);
    SplitAtBoundary(b, p, more);
    Associates(b[..p], OnWire(t), b[p..]);
    Associates(Split(b[..p]), [t], Split(b[p..]));
  }

  /** The options still to be met from octet `p` on. */
  function SplitFrom(data: Bytes, p: nat): seq<Tlv>
    requires p <= |data|
  {
    Split(data[p..])
  }

  lemma AtOption(data: Bytes, p: nat, length: nat)
    requires p + 2 + length <= |data| && data[p] != PAD1 && data[p + 1] == length
    ensures SplitFrom(data, p) == [Tlv(data[p], data[p + 2..p + 2 + length])] + SplitFrom(data, p + 2 + length)
    ensures Turn(data[p..]) == Some(2 + length)
  {
    var rest := data[p..];
    assert Turn(rest) == Some(2 + length);
    assert rest[2..2 + length] == data[p + 2..p + 2 + length] && rest[2 + length..] == data[p + 2 + length..];
  }

  lemma AtPadding(data: Bytes, p: nat)
    requires p < |data| && data[p] == PAD1
    ensures SplitFrom(data, p) == SplitFrom(data, p + 1) && Turn(data[p..]) == Some(1)
  {
    var rest := data[p..];
    assert rest[1..] == data[p + 1..];
    assert Split(rest) == [] + Split(rest[1..]) == Split(rest[1..]);
  }

  /** A read position in a buffer. Every read has to be within it. */
  class Cursor {
    const data: Bytes
    var pos: nat

    constructor (data: Bytes)
      ensures this.data == data && pos == 0
    {
      this.data := data;
      pos := 0;
    }

    predicate Has(n: nat)
      reads this
    {
      pos + n <= |data|
    }

    method ReadU8() returns (x: Byte)
      requires Has(1)
      modifies this
      ensures pos == old(pos) + 1 && x == data[old(pos)]
    {
      x := data[pos];
      pos := pos + 1;
    }

    method ReadU16() returns (x: U16)
      requires Has(2)
      modifies this
      ensures pos == old(pos) + 2 && x == Get16(data[old(pos)..old(pos) + 2])
    {
      x := Get16(data[pos..pos + 2]);
      pos := pos + 2;
    }

    method ReadU32() returns (x: U32)
      requires Has(4)
      modifies this
      ensures pos == old(pos) + 4 && x == Get32(data[old(pos)..old(pos) + 4])
    {
      x := Get32(data[pos..pos + 4]);
      pos := pos + 4;
    }

    method Read(n: nat) returns (b: Bytes)
      requires Has(n)
      modifies this
      ensures pos == old(pos) + n && b == data[old(pos)..old(pos) + n]
    {
      b := data[pos..pos + n];
      pos := pos + n;
    }

    method Next(n: nat)
      requires Has(n)
      modifies this
      ensures pos == old(pos) + n
    {
      pos := pos + n;
    }
  }
}
