/**
 * `testlib::constexpr_add`: `a + b` on two C++ `int`s (32-bit here).
 * Signed overflow is undefined behaviour in C++ and the code does not check
 * for it, so callers must keep the sum within `int`.
 */
module TestlibAdd {
  import opened CppIntegers

  /** Within `int`, the machine sum is the mathematical sum. */
  function ConstexprAdd(a: Int32, b: Int32): (r: Int32)
    requires InInt32Range(a as int + b as int)
    ensures r as int == a as int + b as int
  {
    a + b
  }

  /** The argument order does not matter. */
  lemma ConstexprAddCommutes(a: Int32, b: Int32)
    requires InInt32Range(a as int + b as int)
    ensures ConstexprAdd(a, b) == ConstexprAdd(b, a)
  {
  }

  /** Zero is a right identity, for every `int`. */
  lemma ConstexprAddIdentity(a: Int32)
    ensures ConstexprAdd(a, 0) == a
  {
  }

  /** The value the test asserts. */
  lemma ConstexprAddTestValue()
    ensures ConstexprAdd(4, 5) == 9
  {
  }
}
