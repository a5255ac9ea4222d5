/**
 * Go's `int64`: two's-complement 64-bit signed integers. Dafny integers are
 * unbounded, so the wrap-around that Go's `+` performs on int64 is written out.
 */
module Int64Arith {
  const MinInt64: int := -0x8000_0000_0000_0000
  const MaxInt64: int := 0x7fff_ffff_ffff_ffff
  /** 2^64, the number of distinct int64 values. */
  const Modulus: int := 0x1_0000_0000_0000_0000

  type Int64 = x: int | MinInt64 <= x <= MaxInt64

  /** The int64 that the mathematical integer x wraps to: the one value in range congruent to x modulo 2^64. */
  function Wrap(x: int): (r: Int64)
    ensures MinInt64 <= x <= MaxInt64 ==> r == x
    ensures (x - r) % Modulus == 0
  {
    (x - MinInt64) % Modulus + MinInt64
  }

  /** Go's `a + b` on int64: the exact sum when it fits, otherwise wrapped by 2^64 once. */
  function Add(a: Int64, b: Int64): (r: Int64)
    ensures MinInt64 <= a + b <= MaxInt64 ==> r == a + b
    ensures a + b > MaxInt64 ==> r == a + b - Modulus
    ensures a + b < MinInt64 ==> r == a + b + Modulus
  {
    WrapShift(a + b, -1);
    WrapShift(a + b, 1);
    Wrap(a + b)
  }

  /** Wrapping ignores multiples of 2^64. */
  lemma WrapShift(x: int, k: int)
    ensures Wrap(x + Modulus * k) == Wrap(x)
  {
    var q := (x - MinInt64) / Modulus;
    var m := (x - MinInt64) % Modulus;
    assert x + Modulus * k - MinInt64 == Modulus * (q + k) + m;
    DivModUnique(x + Modulus * k - MinInt64, q + k, m);
  }

  /** Euclidean division by 2^64 has exactly one quotient and remainder. */
  lemma DivModUnique(n: int, q: int, m: int)
    requires 0 <= m < Modulus
    requires n == Modulus * q + m
    ensures n / Modulus == q && n % Modulus == m
  {
  }

  /** Wrapping an intermediate result does not change the wrapped total. */
  lemma WrapOfWrap(x: int, y: int)
    ensures Wrap(Wrap(x) + y) == Wrap(x + y)
  {
    var q := (x - MinInt64) / Modulus;
    assert Wrap(x) + y == x + y + Modulus * (-q);
    WrapShift(x + y, -q);
  }

  /** int64 addition with wrap-around is associative, so the order deltas are summed in does not matter. */
  lemma AddAssociative(a: Int64, b: Int64, c: Int64)
    ensures Add(Add(a, b), c) == Add(a, Add(b, c))
  {
    WrapOfWrap(a + b, c);
    WrapOfWrap(b + c, a);
    assert a + b + c == b + c + a;
  }
}
