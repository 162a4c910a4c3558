/**
  Java's integer and cast semantics where they differ from Dafny's
  mathematical integers: `/` truncates toward zero, `int` arithmetic wraps
  modulo 2^32, and `(int)` of a double truncates toward zero.
 */
module JavaInt {

  const INT_MIN: int := -0x8000_0000
  const INT_MAX: int := 0x7FFF_FFFF
  const MODULUS: int := 0x1_0000_0000

  predicate IsInt(x: int) {
    INT_MIN <= x <= INT_MAX
  }

  /** The value a Java `int` expression holds when the exact result is `x`. */
  function Wrap(x: int): (r: int)
    ensures IsInt(r)
    ensures (x - r) % MODULUS == 0
    ensures IsInt(x) ==> r == x
  {
    (x - INT_MIN) % MODULUS + INT_MIN
  }

  /** Java's `a / b` for a positive divisor: the quotient truncated toward zero. */
  function Quot(a: int, b: int): (q: int)
    requires b > 0
    ensures a >= 0 ==> 0 <= q * b <= a < q * b + b
    ensures a < 0 ==> q * b - b < a <= q * b <= 0
  {
    if a >= 0 then
      DivBounds(a, b);
      a / b
    else
      DivBounds(-a, b);
      -((-a) / b)
  }

  lemma DivBounds(a: int, b: int)
    requires a >= 0 && b > 0
    ensures 0 <= (a / b) * b <= a < (a / b) * b + b
  {
    assert a == (a / b) * b + a % b;
  }

  lemma MulMonotone(x: int, y: int, z: int)
    requires x >= 0 && y <= z
    ensures x * y <= x * z
  {
  }

  lemma MulAtLeast(q: int, b: int)
    requires q >= 0 && b >= 1
    ensures q <= q * b
  {
  }

  /** A non-negative quotient by a positive divisor is at most the dividend. */
  lemma DivNotAbove(a: int, b: int)
    requires a >= 0 && b >= 1
    ensures 0 <= a / b <= a
  {
    assert a == (a / b) * b + a % b;
    MulAtLeast(a / b, b);
  }

  /** Dividing a non-negative number by a larger divisor never gives a larger quotient. */
  lemma DivAntitone(a: int, b: int, c: int)
    requires a >= 0 && 1 <= b <= c
    ensures a / c <= a / b
  {
    var qb, qc := a / b, a / c;
    DivBounds(a, b);
    DivBounds(a, c);
    if qc > qb {
      MulMonotone(b, qb + 1, qc);
      MulMonotone(qc, b, c);
    }
  }

  /** Java's `(int) x` for a double `x` inside the int range: truncation toward zero. */
  function Truncate(x: real): (n: int)
    ensures x >= 0.0 ==> n as real <= x < n as real + 1.0
    ensures x < 0.0 ==> n as real - 1.0 < x <= n as real
  {
    if x >= 0.0 then x.Floor else -((-x).Floor)
  }
}
