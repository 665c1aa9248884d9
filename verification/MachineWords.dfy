/** 32-bit machine words: unsigned values, their two's-complement reading and wrap-around. */
module MachineWords {

  const TWO_32: int := 0x1_0000_0000
  const TWO_31: int := 0x8000_0000

  type u32 = x: int | 0 <= x < 0x1_0000_0000

  /** The value an `int` variable shows when it holds the bits of `u`. */
  function ToSigned(u: u32): int {
    if u < TWO_31 then u else u - TWO_32
  }

  /** The bits left in a 32-bit variable after storing `v`. */
  function Wrap(v: int): u32 {
    v % TWO_32
  }

  lemma WrapToSigned(u: u32)
    ensures Wrap(ToSigned(u)) == u
    ensures -TWO_31 <= ToSigned(u) < TWO_31
  {
  }
}
