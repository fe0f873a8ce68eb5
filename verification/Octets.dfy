/** Octet strings and the addresses written in them. */
module Octets {
  import opened Lollipop

  type Bytes = seq<Byte>

  /** An IPv6 address as it stands on the wire. */
  type Ip = a: Bytes | |a| == 16 witness [0, 0, 0, 0, 0, 0, 0, 0, 0, 0, 0, 0, 0, 0, 0, 0]

  const UNSPECIFIED: Ip := [0, 0, 0, 0, 0, 0, 0, 0, 0, 0, 0, 0, 0, 0, 0, 0]
  const LINK_LOCAL_PREFIX: Bytes := [0xfe, 0x80, 0, 0, 0, 0, 0, 0]

  predicate IsLinkLocal(a: Ip) {
    a[..8] == LINK_LOCAL_PREFIX
  }

  predicate IsMulticast(a: Ip) {
    a[0] == 0xff
  }

  /** How many times d goes into x. */
  function Whole(x: nat, d: nat): (q: nat)
    requires d > 0
    ensures d <= x ==> q > 0
  {
    x / d
  }

  /** What is left when d has gone into x as often as it does. */
  function Rest(x: nat, d: nat): (r: nat)
    requires d > 0
    ensures r < d
  {
    x % d
  }

  type U16 = x: int | 0 <= x < 0x1_0000
  type U32 = x: int | 0 <= x < 0x1_0000_0000

  function Put16(x: U16): Bytes {
    [x / 256, x % 256]
  }

  function Get16(b: Bytes): U16
    requires |b| == 2
  {
    var high: int, low: int := b[0], b[1];
    high * 256 + low
  }

  function Put32(x: U32): Bytes {
    Put16(x / 0x1_0000) + Put16(x % 0x1_0000)
  }

  function Get32(b: Bytes): U32
    requires |b| == 4
  {
    var high: int, low: int := Get16(b[..2]), Get16(b[2..]);
    high * 0x1_0000 + low
  }
}
