// The integer ranges of the source.
module Ints {

  const MAX_UINT128: nat := 0xFFFF_FFFF_FFFF_FFFF_FFFF_FFFF_FFFF_FFFF

  type u128 = n: int | 0 <= n <= MAX_UINT128

  const MAX_UINT64: nat := 0xFFFF_FFFF_FFFF_FFFF
}
