# testlib: Fibonacci modulo 2^64 and constexpr addition

A Dafny model of the two functions of the `testlib` header library:

- `testlib::fibonacci(int n)` returns the Fibonacci numbers of OEIS A000045
  reduced modulo 2^64, computed by naive double recursion: an `n` of at most
  1 is converted to `std::uint64_t` and returned, any larger `n` returns the
  `std::uint64_t` sum of the two previous terms, which wraps modulo 2^64.
- `testlib::constexpr_add(int a, int b)` returns `a + b` on `int`.

Files:

- `cpp_integers.dfy` (module `CppIntegers`): the C++ integer types the two
  headers use, as newtypes (`Int32` for `int`, assumed 32-bit two's
  complement; `UInt64` for `std::uint64_t`), the `int` to `std::uint64_t`
  conversion and wrapping `std::uint64_t` addition.
- `fibonacci.dfy` (module `TestlibFibonacci`): `Fib`, the unbounded A000045
  sequence; `Fibonacci`, the C++ function as written over every 32-bit `n`;
  and lemmas relating the two.
- `add.dfy` (module `TestlibAdd`): `ConstexprAdd` and its lemmas.

Because the result type of `Fibonacci` is `UInt64`, every result lies in
[0, 2^64). Termination of the double recursion is checked by Dafny through
the `decreases n as int` clause: both recursive calls take a strictly smaller
`n`. The arithmetic `n - 1` and `n - 2` is on `Int32`, so Dafny also checks
that it cannot overflow `int` (it happens only when `n > 1`).

The header documents the function as valid for `n >= 0`, but the code gives
a defined result for a negative `n` too: the `n <= 1` branch converts it to
`std::uint64_t`, which yields 2^64 + n. The model therefore takes every
32-bit `n`; the documented domain `n >= 0` is the precondition of the lemma
that relates the result to A000045, and `FibonacciNegative` states what a
negative `n` gives.

Signed overflow in `constexpr_add` is undefined behaviour in C++ and the code
does not check for it, so `ConstexprAdd` requires the mathematical sum to lie
in the 32-bit `int` range, and no wrap-around is modelled.

## Model

| member | source | states |
|---|---|---|
| CppIntegers.Int32ToUInt64 | src/testlib/fibonacci.h:16 | `static_cast<std::uint64_t>` of an `int` gives the value in [0, 2^64) congruent to it modulo 2^64 |
| CppIntegers.AddUInt64 | src/testlib/fibonacci.h:18 | the `std::uint64_t` sum of the two previous terms is their mathematical sum reduced modulo 2^64 |
| CppIntegers.WrappedSumOfResidues | src/testlib/fibonacci.h:18 | wrapping addition of the residues of two naturals gives the residue of their sum |
| TestlibFibonacci.FibonacciBaseCases | src/testlib/fibonacci.h:15-16 | `fibonacci(0) == 0` and `fibonacci(1) == 1`: the base case returns `n` itself |
| TestlibFibonacci.FibonacciRecurrence | src/testlib/fibonacci.h:18 | for `n >= 2`, `fibonacci(n)` is `(fibonacci(n-1) + fibonacci(n-2)) mod 2^64` |
| TestlibFibonacci.FibonacciNegative | src/testlib/fibonacci.h:14-16 | outside the documented domain, a negative `n` does not recurse and yields 2^64 + n |
| TestlibFibonacci.FibonacciIsA000045Mod | src/testlib/fibonacci.h:8-19 | for every `n >= 0`, `fibonacci(n)` equals the A000045 number F(n) modulo 2^64 |
| TestlibFibonacci.FibonacciExactIffAtMost93 | src/testlib/fibonacci.h:8-9 | for `n >= 0`, the result is exactly F(n), with no wrap-around, if and only if `n <= 93` |
| TestlibFibonacci.FibonacciTestValues | src/testlib/fibonacci.test/fibonacci.pass.cpp:6-8 | `fibonacci(0) == 0`, `fibonacci(5) == 5`, `fibonacci(28) == 317811` |
| TestlibAdd.ConstexprAdd | src/testlib/add.h:11 | when `a + b` fits in a 32-bit `int`, the result is the mathematical sum |
| TestlibAdd.ConstexprAddCommutes | src/testlib/add.h:11 | `constexpr_add(a, b) == constexpr_add(b, a)` whenever the sum fits in `int` |
| TestlibAdd.ConstexprAddIdentity | src/testlib/add.h:11 | `constexpr_add(a, 0) == a` for every `int` a |
| TestlibAdd.ConstexprAddTestValue | src/testlib/add.test/constexpr_add.pass.cpp:6 | `constexpr_add(4, 5) == 9` |

## Left out

- `testlib::add_t` and its `operator()` (src/testlib/add.h:6-9): only the declaration is in the header and its definition is not part of this model, so there is no behaviour to state.
- Compile-time evaluation: `constexpr`, `static_assert` and the compiler's evaluation-step limit that the naive recursion is meant to exercise. These are compiler concerns, not results of the functions.
- The test programs' `main` functions and `assert.h` plumbing; only the values they assert are kept, as lemmas.
- The exponential running time of the double recursion; the model states results, not cost.
- The width of `int` is fixed at 32 bits; a platform with a wider `int` is not modelled.
