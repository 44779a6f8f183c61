/** The machine integers the allocators compute in. Every operation on these
    types is checked by the verifier to stay in range. */
module Widths {
  import opened Sums

  const TWO_64: nat := 0x1_0000_0000_0000_0000
  const TWO_128: nat := 0x1_0000_0000_0000_0000_0000_0000_0000_0000

  newtype u64 = x: int | 0 <= x < 0x1_0000_0000_0000_0000
  newtype u128 = x: int | 0 <= x < 0x1_0000_0000_0000_0000_0000_0000_0000_0000

  /** The product of two 64-bit values needs 128 bits and never more. */
  lemma ProductFits(a: nat, b: nat)
    requires a < TWO_64 && b < TWO_64
    ensures a * b < TWO_128
  {
    var top := 0xFFFF_FFFF_FFFF_FFFF;
    MulMonotone(a, b, top);
    assert a * top <= top * top;
  }
}
