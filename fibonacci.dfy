/**
 * `testlib::fibonacci`: the Fibonacci numbers of OEIS A000045, reduced
 * modulo 2^64, computed by naive double recursion on `std::uint64_t`.
 */
module TestlibFibonacci {
  import opened CppIntegers

  /** The unbounded Fibonacci sequence, OEIS A000045. */
  function Fib(n: nat): (r: nat) {
    if n <= 1 then n else Fib(n - 1) + Fib(n - 2)
  }

  /**
   * The C++ function as written. A 32-bit `n` at most 1 is converted to
   * `std::uint64_t` (so a negative `n` yields 2^64 + n); otherwise the two
   * previous terms are added with wrapping `std::uint64_t` addition. The
   * subtractions `n - 1` and `n - 2` happen only when `n > 1`, so they stay
   * within `int`.
   */
  function Fibonacci(n: Int32): (r: UInt64)
    decreases n as int
  {
    if n <= 1 then Int32ToUInt64(n)
    else AddUInt64(Fibonacci(n - 1), Fibonacci(n - 2))
  }

  /** The base cases return `n` itself. */
  lemma FibonacciBaseCases()
    ensures Fibonacci(0) == 0 && Fibonacci(1) == 1
  {
  }

  /** Above the base cases each term is the wrapped sum of the two before it. */
  lemma FibonacciRecurrence(n: Int32)
    requires n >= 2
    ensures Fibonacci(n) as int == (Fibonacci(n - 1) as int + Fibonacci(n - 2) as int) % UINT64_MODULUS
  {
    assert Fibonacci(n) == AddUInt64(Fibonacci(n - 1), Fibonacci(n - 2));
  }

  /**
   * Outside the documented domain a negative `n` does not recurse: it is
   * converted to `std::uint64_t`, which gives 2^64 + n.
   */
  lemma FibonacciNegative(n: Int32)
    requires n < 0
    ensures Fibonacci(n) as int == UINT64_MODULUS + n as int
  {
  }

  /** On the documented domain the function yields A000045 modulo 2^64. */
  lemma {:induction false} FibonacciIsA000045Mod(n: Int32)
    requires n >= 0
    ensures Fibonacci(n) as int == Fib(n as nat) % UINT64_MODULUS
    decreases n as int
  {
    if n <= 1 {
      assert Fibonacci(n) as int == n as int;
    } else {
      var a, b := Fib(n as nat - 1), Fib(n as nat - 2);
      FibonacciIsA000045Mod(n - 1);
      FibonacciIsA000045Mod(n - 2);
      assert Fibonacci(n) == AddUInt64(Fibonacci(n - 1), Fibonacci(n - 2));
      assert Fib(n as nat) == a + b;
      WrappedSumOfResidues(Fibonacci(n - 1), Fibonacci(n - 2), a, b);
    }
  }

  /** A000045 never decreases. */
  lemma {:induction false} FibMonotone(i: nat, j: nat)
    requires i <= j
    ensures Fib(i) <= Fib(j)
    decreases j - i
  {
    if i < j {
      FibMonotone(i, j - 1);
      assert Fib(j - 1) <= Fib(j);
    }
  }

  /** F(93) is the last Fibonacci number below 2^64 and F(94) the first above it. */
  lemma FibAround64Bits()
    ensures Fib(93) == 12200160415121876738 < UINT64_MODULUS
    ensures Fib(94) == 19740274219868223167 >= UINT64_MODULUS
  {
    // Consecutive pairs every eight terms, so that each value is reached
    // from the previous pair by a short unfolding of the recurrence.
    assert Fib(8) == 21 && Fib(9) == 34;
    assert Fib(16) == 987 && Fib(17) == 1597;
    assert Fib(24) == 46368 && Fib(25) == 75025;
    assert Fib(32) == 2178309 && Fib(33) == 3524578;
    assert Fib(40) == 102334155 && Fib(41) == 165580141;
    assert Fib(48) == 4807526976 && Fib(49) == 7778742049;
    assert Fib(56) == 225851433717 && Fib(57) == 365435296162;
    assert Fib(64) == 10610209857723 && Fib(65) == 17167680177565;
    assert Fib(72) == 498454011879264 && Fib(73) == 806515533049393;
    assert Fib(80) == 23416728348467685 && Fib(81) == 37889062373143906;
    assert Fib(88) == 1100087778366101931 && Fib(89) == 1779979416004714189;
  }

  /**
   * The result is the exact Fibonacci number, with no wrap-around, exactly
   * when n <= 93: F(93) is the last Fibonacci number below 2^64.
   */
  lemma FibonacciExactIffAtMost93(n: Int32)
    requires n >= 0
    ensures Fibonacci(n) as int == Fib(n as nat) <==> n <= 93
  {
    FibonacciIsA000045Mod(n);
    FibAround64Bits();
    if n <= 93 {
      FibMonotone(n as nat, 93);
    } else {
      FibMonotone(94, n as nat);
    }
  }

  /** The values the test asserts. */
  lemma FibonacciTestValues()
    ensures Fibonacci(0) == 0
    ensures Fibonacci(5) == 5
    ensures Fibonacci(28) == 317811
  {
    // Stepping stones for the unfolding of the recursion, as above.
    assert Fibonacci(8) == 21 && Fibonacci(9) == 34;
    assert Fibonacci(16) == 987 && Fibonacci(17) == 1597;
    assert Fibonacci(24) == 46368 && Fibonacci(25) == 75025;
  }
}
