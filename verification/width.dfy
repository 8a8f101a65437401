/**
 * Fixed-width unsigned arithmetic of the C source: every store into a
 * `uint32_t` or `uint64_t` keeps the value modulo 2^32 or 2^64.
 */
module Width {

  const U32_MOD: nat := 0x1_0000_0000
  const U64_MOD: nat := 0x1_0000_0000_0000_0000
  const U64_MAX: nat := U64_MOD - 1

  /** The value a `uint32_t` holds after being assigned `v`. */
  function Wrap32(v: int): (r: nat)
    ensures r < U32_MOD
    ensures 0 <= v < U32_MOD ==> r == v
    ensures -(U32_MOD as int) <= v < 0 ==> r == v + U32_MOD
  {
    v % U32_MOD
  }

  /** The value a `uint64_t` holds after being assigned `v`. */
  function Wrap64(v: int): (r: nat)
    ensures r < U64_MOD
    ensures 0 <= v < U64_MOD ==> r == v
    ensures U64_MOD <= v < 2 * U64_MOD ==> r == v - U64_MOD
    ensures -(U64_MOD as int) <= v < 0 ==> r == v + U64_MOD
  {
    v % U64_MOD
  }

  /** The `int` a `uint32_t` becomes when stored into an `int` (two's complement). */
  function AsInt32(u: nat): (r: int)
    requires u < U32_MOD
    ensures -0x8000_0000 <= r < 0x8000_0000
    ensures Wrap32(r) == u
  {
    if u < 0x8000_0000 then u else u - U32_MOD
  }
}
