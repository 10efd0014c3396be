/** Integer arithmetic as C and C++ perform it on `int`.
    Dafny's `/` and `%` are Euclidean; C truncates the quotient toward zero,
    and a float-to-int conversion truncates the same way. */
module CArith {

  /** `a / b` in C: the quotient rounded toward zero. */
  function TruncDiv(a: int, b: int): (q: int)
    requires 0 < b
    ensures 0 <= a ==> 0 <= q * b <= a < q * b + b
    ensures a < 0 ==> q * b - b < a <= q * b <= 0
  {
    if 0 <= a then
      DivBounds(a, b);
      a / b
    else
      DivBounds(-a, b);
      -((-a) / b)
  }

  /** Euclidean division of a non-negative number rounds down. */
  lemma DivBounds(a: int, b: int)
    requires 0 <= a && 0 < b
    ensures 0 <= (a / b) * b <= a < (a / b) * b + b
  {
    var q, r := a / b, a % b;
    assert a == q * b + r && 0 <= r < b;
    assert 0 <= q;
    assert 0 <= q * b;
  }

  /** `a % b` in C: the remainder takes the sign of the dividend. */
  function TruncRem(a: int, b: int): (r: int)
    requires 0 < b
    ensures a == TruncDiv(a, b) * b + r
    ensures 0 <= a ==> 0 <= r < b
    ensures a < 0 ==> -b < r <= 0
  {
    a - TruncDiv(a, b) * b
  }

  /** Euclidean division by `n` has only one quotient and remainder. */
  lemma ModUnique(a: int, n: int, d: int, r: int)
    requires 0 < n && a == d * n + r && 0 <= r < n
    ensures a % n == r
  {
    var d0, r0 := a / n, a % n;
    assert a == d0 * n + r0;
    var k := d - d0;
    assert k * n == d * n - d0 * n;
    assert k * n == r0 - r;
  }

  /** Adding to a remainder and reducing again is reducing the sum. */
  lemma ModOfSum(a: int, b: int, n: int)
    requires 0 < n
    ensures (a % n + b) % n == (a + b) % n
  {
    var s := a % n + b;
    assert a == (a / n) * n + a % n;
    assert s == (s / n) * n + s % n;
    assert a + b == (a / n + s / n) * n + s % n;
    ModUnique(a + b, n, a / n + s / n, s % n);
  }

  /** Adding a multiple of `n` does not change the remainder. */
  lemma ModShift(a: int, q: int, n: int)
    requires 0 < n
    ensures (a + q * n) % n == a % n
  {
    assert a == (a / n) * n + a % n;
    assert a + q * n == (a / n + q) * n + a % n;
    ModUnique(a + q * n, n, a / n + q, a % n);
  }
}
