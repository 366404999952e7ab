/**
 * The fixed-width C++ integer types used by the `testlib` headers, with the
 * arithmetic the C++ standard gives them: `int` is taken to be 32 bits wide,
 * and `std::uint64_t` arithmetic and conversions reduce modulo 2^64.
 */
module CppIntegers {

  const INT32_MIN: int := -0x8000_0000
  const INT32_MAX: int := 0x7fff_ffff
  const UINT64_MODULUS: int := 0x1_0000_0000_0000_0000

  /** A C++ `int`, assumed to be 32-bit two's complement. */
  newtype Int32 = x: int | INT32_MIN <= x <= INT32_MAX

  /** A C++ `std::uint64_t`. */
  newtype UInt64 = x: int | 0 <= x < UINT64_MODULUS

  /** The values a 32-bit `int` can hold. */
  predicate InInt32Range(x: int) {
    INT32_MIN <= x <= INT32_MAX
  }

  /**
   * `static_cast<std::uint64_t>(x)` for an `int` x: the unique value in
   * [0, 2^64) that is congruent to `x` modulo 2^64.
   */
  function Int32ToUInt64(x: Int32): (r: UInt64)
    ensures (x as int - r as int) % UINT64_MODULUS == 0
  {
    if x >= 0 then x as int as UInt64 else (UINT64_MODULUS + x as int) as UInt64
  }

  /**
   * `a + b` on `std::uint64_t`: the mathematical sum when it fits, and the
   * sum less 2^64 when it does not (unsigned arithmetic never overflows, it
   * wraps).
   */
  function AddUInt64(a: UInt64, b: UInt64): (r: UInt64)
    ensures r as int == (a as int + b as int) % UINT64_MODULUS
  {
    var sum := a as int + b as int;
    if sum < UINT64_MODULUS then sum as UInt64 else (sum - UINT64_MODULUS) as UInt64
  }

  /** Reducing the summands first does not change a sum modulo 2^64. */
  lemma ModAddDistributes(a: nat, b: nat)
    ensures (a % UINT64_MODULUS + b % UINT64_MODULUS) % UINT64_MODULUS == (a + b) % UINT64_MODULUS
  {
    var qa, ra := a / UINT64_MODULUS, a % UINT64_MODULUS;
    var qb, rb := b / UINT64_MODULUS, b % UINT64_MODULUS;
    assert a + b == (qa + qb) * UINT64_MODULUS + (ra + rb);
  }

  /**
   * Adding the residues of `a` and `b` with wrapping `std::uint64_t`
   * addition gives the residue of `a + b`.
   */
  lemma WrappedSumOfResidues(x: UInt64, y: UInt64, a: nat, b: nat)
    requires x as int == a % UINT64_MODULUS && y as int == b % UINT64_MODULUS
    ensures AddUInt64(x, y) as int == (a + b) % UINT64_MODULUS
  {
    ModAddDistributes(a, b);
  }
}
