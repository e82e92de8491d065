/** Facts about Euclidean division that the ring-buffer index arithmetic relies on. */
module Arith {

  lemma MulAtLeast(x: int, n: int)
    requires x >= 1 && n > 0
    ensures x * n >= n
  {
  }

  lemma MulMonotone(x: int, y: int, k: int)
    requires x <= y && 0 <= k
    ensures x * k <= y * k
  {
    if x < y && 0 < k { MulAtLeast(y - x, k); assert y * k - x * k == (y - x) * k; }
  }

  /** Quotient and remainder are unique. */
  lemma ModUnique(a: int, n: int, q: int, r: int)
    requires n > 0 && 0 <= r < n && a == q * n + r
    ensures a % n == r && a / n == q
  {
    var q0, r0 := a / n, a % n;
    assert a == q0 * n + r0;
    var dq := q - q0;
    assert dq * n == r0 - r by { assert q * n - q0 * n == (q - q0) * n; }
    if dq > 0 { MulAtLeast(dq, n); }
    if dq < 0 { MulAtLeast(-dq, n); }
  }

  lemma ModOfSmall(a: int, n: int)
    requires 0 <= a < n
    ensures a % n == a
  {
    ModUnique(a, n, 0, a);
  }

  lemma ModStep(a: int, n: int)
    requires n > 0
    ensures (a + 1) % n == if a % n == n - 1 then 0 else a % n + 1
  {
    var q, r := a / n, a % n;
    if r == n - 1 { ModUnique(a + 1, n, q + 1, 0); } else { ModUnique(a + 1, n, q, r + 1); }
  }

  /** Advancing a reduced index by one and reducing again is the same as reducing the sum. */
  lemma ModAddOne(a: int, n: int)
    requires n > 0
    ensures (a % n + 1) % n == (a + 1) % n
  {
    ModStep(a, n);
    ModOfSmall(a % n, n);
    ModStep(a % n, n);
  }

  lemma ModShift(a: int, q: int, n: int)
    requires n > 0
    ensures (a + q * n) % n == a % n
  {
    ModUnique(a + q * n, n, a / n + q, a % n);
  }

  /** Reducing the left operand of a difference first does not change the remainder. */
  lemma ModSubReduced(a: int, b: int, n: int)
    requires n > 0
    ensures (a % n - b) % n == (a - b) % n
  {
    ModShift(a - b, -(a / n), n);
    assert a - b + -(a / n) * n == a % n - b;
  }

  /** For `j` in `[0, n)`, `a - j` is a multiple of `n` exactly when `a` reduces to `j`. */
  lemma ModZero(a: int, j: int, n: int)
    requires n > 0 && 0 <= j < n
    ensures (a - j) % n == 0 <==> a % n == j
  {
    var q, r := a / n, a % n;
    if r == j { ModUnique(a - j, n, q, 0); }
    else if r > j { ModUnique(a - j, n, q, r - j); }
    else { ModUnique(a - j, n, q - 1, r - j + n); }
  }

  /** `e / k` is below `c` exactly when `e` is below `c * k`. */
  lemma DivBelow(e: int, k: int, c: int)
    requires 0 <= e && 0 < k
    ensures e / k < c <==> e < c * k
  {
    var s := e / k;
    assert e == s * k + e % k;
    if s < c { MulMonotone(s + 1, c, k); assert (s + 1) * k == s * k + k; }
    else { MulMonotone(c, s, k); }
  }
}
