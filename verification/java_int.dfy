/** Java's 32-bit `int`: the range, two's-complement wrap-around, and the
    wrapped `+` and `-` that the game's score arithmetic uses. */
module JavaInt {

  const MIN: int := -0x8000_0000
  const MAX: int := 0x7FFF_FFFF
  const MODULUS: int := 0x1_0000_0000

  /** The values a Java `int` can hold. */
  predicate InRange(x: int) {
    MIN <= x <= MAX
  }

  type int32 = x: int | InRange(x)

  /** The Java `int` that a mathematical integer wraps to: the unique value of the
      range congruent to `x` modulo 2^32. */
  function Wrap(x: int): (r: int32)
    ensures InRange(x) ==> r == x
    ensures (x - r) % MODULUS == 0
  {
    (x - MIN) % MODULUS + MIN
  }

  /** Java's `a + b` on `int`. */
  function Add(a: int32, b: int32): int32 {
    Wrap(a + b)
  }

  /** Java's `a - b` on `int`. */
  function Sub(a: int32, b: int32): int32 {
    Wrap(a - b)
  }

  /** Two integers that differ by a multiple of 2^32 wrap to the same `int`. */
  lemma WrapCongruent(x: int, y: int)
    requires (x - y) % MODULUS == 0
    ensures Wrap(x) == Wrap(y)
  {
    var k := (x - y) / MODULUS;
    assert x - MIN == (y - MIN) + k * MODULUS;
    ModAddMultiple(y - MIN, k);
  }

  lemma {:induction false} ModAddMultiple(a: int, k: int)
    ensures (a + k * MODULUS) % MODULUS == a % MODULUS
    decreases if k < 0 then -k else k
  {
    if k > 0 {
      ModAddMultiple(a, k - 1);
      assert a + k * MODULUS == (a + (k - 1) * MODULUS) + MODULUS;
    } else if k < 0 {
      ModAddMultiple(a, k + 1);
      assert a + k * MODULUS == (a + (k + 1) * MODULUS) - MODULUS;
    }
  }

  /** Wrapping an intermediate result does not change the final wrapped value:
      a chain of Java additions equals one wrap of the exact sum. */
  lemma WrapAddWrap(a: int, b: int)
    ensures Wrap(Wrap(a) + b) == Wrap(a + b)
  {
    WrapCongruent(Wrap(a) + b, a + b);
  }
}
