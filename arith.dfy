/** Small facts about integer multiplication, division and remainder (Euclidean, as Dafny's). */
module Arith {
  /** Division by a positive number keeps the order. */
  lemma DivMono(x: int, y: int, d: int)
    requires 0 <= x <= y && d > 0
    ensures 0 <= x / d <= y / d
  {
    var qx, qy := x / d, y / d;
    assert qx * d <= x && x < qx * d + d;
    assert qy * d <= y && y < qy * d + d;
    assert (qy + 1) * d == qy * d + d;
    MulLess(qx, qy + 1, d);
  }

  /** A smaller product by the same positive factor has the smaller multiplicand. */
  lemma MulLess(a: int, b: int, d: int)
    requires d > 0 && a * d < b * d
    ensures a < b
  {
    if a >= b {
      MulMono(b, a, d);
    }
  }

  lemma MulMono(a: int, b: int, d: int)
    requires a <= b && d >= 0
    ensures a * d <= b * d
  {
    assert b * d - a * d == (b - a) * d;
  }

  lemma DivExact(x: int, d: int, q: int)
    requires d > 0 && q * d <= x < q * d + d
    ensures x / d == q
  {
    var r := x / d;
    assert r * d <= x < r * d + d;
    assert (q + 1) * d == q * d + d && (r + 1) * d == r * d + d;
    MulLess(r, q + 1, d);
    MulLess(q, r + 1, d);
  }

  /** The remainder of `q * n + s` for `0 <= s < n` is `s`. */
  lemma ModOf(x: int, n: int, q: int, s: int)
    requires n >= 1 && 0 <= s < n && x == q * n + s
    ensures x / n == q && x % n == s
  {
    assert (q + 1) * n == q * n + n;
    DivExact(x, n, q);
  }

  /** Stepping one past a remainder and reducing again is the remainder of the successor. */
  lemma ModSucc(x: int, n: int)
    requires n >= 1
    ensures (x % n + 1) % n == (x + 1) % n
  {
    var q, s := x / n, x % n;
    if s + 1 < n {
      ModOf(x + 1, n, q, s + 1);
      ModOf(s + 1, n, 0, s + 1);
    } else {
      assert (q + 1) * n == q * n + n;
      ModOf(x + 1, n, q + 1, 0);
      ModOf(s + 1, n, 1, 0);
    }
  }
}
