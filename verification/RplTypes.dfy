/** Types and constants shared by the routing modules. Addresses are opaque ordered values with `::` as 0, times are
    naturals in the clock's own unit. */
module RplTypes {
  import opened Lollipop

  type Address = nat
  const ANY: Address := 0

  type Time = nat

  type Rank = x: nat | x <= 0xFFFF
  const INFINITE_RANK: Rank := 0xFFFF

  const INFINITE_LIFETIME: Byte := 0xFF

  datatype Option<+T> = None | Some(value: T)
}
