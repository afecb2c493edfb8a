/** Small facts of integer arithmetic that the solver does not find alone. */
module Arithmetic {

  /** Euclidean division is unique: a quotient and remainder in range are the ones. */
  lemma DivModUnique(n: int, m: int, q: int, rem: int)
    requires m > 0 && n == m * q + rem && 0 <= rem < m
    ensures n / m == q && n % m == rem
  {
    var k := q - n / m;
    assert m * k == n % m - rem;
  }

  /** Multiplying by a non-negative factor keeps the order. */
  lemma MulLe(a: int, b: int, c: int)
    requires a <= b && c >= 0
    ensures a * c <= b * c
  {
    assert b * c - a * c == (b - a) * c;
  }

  /** A non-zero multiple of s is at least s away from zero. */
  lemma MulMono(s: int, d: int)
    requires s >= 0
    ensures d >= 1 ==> s * d >= s
    ensures d <= -1 ==> s * d <= -s
  {
    if d >= 1 {
      assert s * d == s + s * (d - 1);
    } else if d <= -1 {
      assert s * d == -s + s * (d + 1);
    }
  }

  /** The successor modulo m of an index below m. */
  lemma ModNext(i: int, m: int)
    requires 0 <= i < m
    ensures (i + 1) % m == if i + 1 == m then 0 else i + 1
  {
    if i + 1 == m {
      DivModUnique(i + 1, m, 1, 0);
    } else {
      DivModUnique(i + 1, m, 0, i + 1);
    }
  }
}
