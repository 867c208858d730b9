/** Shared vocabulary of the model: optional values, results with an error
    side, and the unsigned 32-bit arithmetic the simulation scripts use for
    their counters (`uint32_t` in C++ wraps modulo 2^32). */
module Base {

  /** A value that may be absent. */
  datatype Option<+T> = None | Some(value: T)

  /** The outcome of an operation that either succeeds with a value or
      stops with an error. */
  datatype Result<+T, +E> = Ok(value: T) | Err(error: E)

  /** Number of distinct `uint32_t` values. */
  const U32: nat := 0x1_0000_0000

  /** A value that fits in a `uint32_t`. */
  type Uint32 = x: nat | x < U32

  /** `a + b` evaluated in `uint32_t`: the sum wraps modulo 2^32. */
  function AddU32(a: Uint32, b: Uint32): (r: Uint32)
    ensures a + b < U32 ==> r == a + b
    ensures a + b >= U32 ==> r == a + b - U32
  {
    (a + b) % U32
  }

  /** `a * b` evaluated in `uint32_t`: the product wraps modulo 2^32. */
  function MulU32(a: Uint32, b: Uint32): (r: Uint32)
    ensures a * b < U32 ==> r == a * b
    ensures r < a * b ==> a * b >= U32
  {
    (a * b) % U32
  }

  /** Wrapping part-way through a sum does not change the wrapped total. */
  lemma WrapAdd(a: nat, b: nat)
    ensures ((a % U32) + b) % U32 == (a + b) % U32
  {
  }

  /** Adding whole multiples of 2^32 does not change the wrapped value. */
  lemma {:induction false} ShiftMod(x: nat, q: nat)
    ensures (x + q * U32) % U32 == x % U32
    decreases q
  {
    if q > 0 {
      ShiftMod(x, q - 1);
      assert x + q * U32 == (x + (q - 1) * U32) + U32;
    }
  }

  /** Wrapping a factor before multiplying does not change the wrapped
      product, so chained `uint32_t` products wrap like the full one. */
  lemma MulMod(a: nat, k: nat)
    ensures ((a % U32) * k) % U32 == (a * k) % U32
  {
    var q, r := a / U32, a % U32;
    assert a == q * U32 + r;
    assert a * k == r * k + (q * k) * U32;
    ShiftMod(r * k, q * k);
  }
}
