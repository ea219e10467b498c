/** Addresses as the program keeps them: 40 normalized hex digits, most significant first. */
module Addresses {

  type Nibble = n: int | 0 <= n < 16

  type Hex = seq<Nibble>

  type Address = h: Hex | |h| == 40 witness seq(40, _ => 0)

  function ZeroAddress(): (a: Address)
    ensures forall k :: 0 <= k < 40 ==> a[k] == 0
  {
    seq(40, _ => 0)
  }

  /** A 32-byte value or an opaque identifier; only ever compared for equality. */
  type Hash = nat
}
